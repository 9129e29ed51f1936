/**
 What the send scheduler puts on a pipe: the order of a connection's frames and their bytes, over
 every interleaving in which CloseConn only ever takes away a writer with no bytes left to write.
 */
module SendOrder {
  import opened Bytes
  import opened Header
  import opened SendScheduler
  import Codec

  // ---------------------------------------------------------------- writes that are over

  function TasksOf(ws: seq<Writing>): (ts: seq<Task>)
    ensures |ts| == |ws| && forall i :: 0 <= i < |ws| ==> ts[i] == ws[i].task
  {
    seq(|ws|, i requires 0 <= i < |ws| => ws[i].task)
  }

  function Frames(ts: seq<Task>): (fs: seq<Codec.Frame>)
    ensures |fs| == |ts| && forall i :: 0 <= i < |ts| ==> fs[i] == ts[i].frame
  {
    seq(|ts|, i requires 0 <= i < |ts| => ts[i].frame)
  }

  /** The bytes a write has put out. */
  function Span(w: Writing): (b: seq<byte>) {
    if w.off <= |Image(w.task)| then Image(w.task)[..w.off] else []
  }

  function Spans(ws: seq<Writing>): (b: seq<byte>) {
    if ws == [] then [] else Spans(ws[..|ws| - 1]) + Span(ws[|ws| - 1])
  }

  predicate Whole(w: Writing) { w.off == |Image(w.task)| }

  /** The tasks written in full. */
  function WholeTasks(ws: seq<Writing>): (ts: seq<Task>) {
    if ws == [] then []
    else WholeTasks(ws[..|ws| - 1]) + if Whole(ws[|ws| - 1]) then [ws[|ws| - 1].task] else []
  }

  /** The tasks whose last byte is on the pipe, in the order of those bytes. */
  function Sent(s: State, c: string): (ts: seq<Task>) { WholeTasks(Past(s, c)) }

  /** No write ended part-way. */
  predicate Untorn(ws: seq<Writing>) {
    forall i :: 0 <= i < |ws| ==> ws[i].off == 0 || Whole(ws[i])
  }

  lemma SpansSnoc(ws: seq<Writing>, w: Writing)
    ensures Spans(ws + [w]) == Spans(ws) + Span(w)
    ensures WholeTasks(ws + [w]) == WholeTasks(ws) + if Whole(w) then [w.task] else []
    ensures TasksOf(ws + [w]) == TasksOf(ws) + [w.task]
  {
    hide Whole;
    hide Span;
    assert (ws + [w])[..|ws|] == ws;
  }

  lemma WireSnoc(ts: seq<Task>, t: Task)
    ensures Codec.Wire(Frames(ts + [t])) == Codec.Wire(Frames(ts)) + Image(t)
  {
    hide FrameBytes;
    assert Frames(ts + [t]) == Frames(ts) + [t.frame];
    Codec.WireAppend(Frames(ts), [t.frame]);
    Codec.WireCons(t.frame, []);
    assert [t.frame] + [] == [t.frame];
    assert Image(t) + Codec.Wire([]) == Image(t);
  }

  lemma SpanCases(w: Writing)
    requires w.off <= |Image(w.task)|
    ensures |Span(w)| == w.off && (w.off == 0 ==> Span(w) == []) && (Whole(w) ==> Span(w) == Image(w.task))
    ensures |Image(w.task)| >= 32
  {
    hide FrameBytes;
  }

  /** The bytes of the ended writes are whole frames, those of the tasks written in full, exactly when none was torn. */
  lemma {:induction false} WholeFramesIff(ws: seq<Writing>)
    requires forall i :: 0 <= i < |ws| ==> ws[i].off <= |Image(ws[i].task)|
    ensures |Codec.Wire(Frames(WholeTasks(ws)))| <= |Spans(ws)|
    ensures Spans(ws) == Codec.Wire(Frames(WholeTasks(ws))) <==> Untorn(ws)
  {
    hide Image;
    hide Codec.Wire;
    if ws == [] {
      EmptyWire();
    } else {
      var init, w := ws[..|ws| - 1], ws[|ws| - 1];
      assert ws == init + [w];
      WholeFramesIff(init);
      SpansSnoc(init, w);
      SpanCases(w);
      UntornSnoc(init, w);
      WireSnoc(WholeTasks(init), w.task);
      hide Untorn;
      hide WholeTasks;
      hide Spans;
      hide Frames;
      hide Span;
      LastSpan(Spans(init), Span(w), Codec.Wire(Frames(WholeTasks(init))), Image(w.task));
      assert WholeTasks(init) + [] == WholeTasks(init);
    }
  }

  lemma ImageSize(t: Task)
    ensures |Image(t)| >= 32
  {
  }

  lemma UntornSnoc(ws: seq<Writing>, w: Writing)
    ensures Untorn(ws + [w]) <==> Untorn(ws) && (w.off == 0 || Whole(w))
  {
    hide Image;
    if Untorn(ws + [w]) {
      assert (ws + [w])[|ws|] == w;
      forall i | 0 <= i < |ws| ensures ws[i].off == 0 || Whole(ws[i]) { assert (ws + [w])[i] == ws[i]; }
    }
  }

  lemma EmptyWire()
    ensures Codec.Wire(Frames(WholeTasks([]))) == [] && Spans([]) == []
  {
  }

  lemma LastSpan(a: seq<byte>, x: seq<byte>, b: seq<byte>, y: seq<byte>)
    requires |b| <= |a|
    ensures a + y == b + y <==> a == b
    ensures x != [] ==> a + x != b
    ensures x == [] ==> a + x == a
  {
    if a + y == b + y {
      assert |a| == |b|;
      assert (a + y)[..|a|] == a && (b + y)[..|b|] == b;
    }
    if a + x == b { assert |a + x| > |b| || x == []; }
  }

  // ---------------------------------------------------------------- order and wire format

  predicate Increasing(ts: seq<Task>) {
    forall i, j :: 0 <= i < j < |ts| ==> ts[i].ticket < ts[j].ticket
  }

  /** What a writer has yet to write, in order. */
  function Left(x: Writer): (ts: seq<Task>) {
    (if x.cur.Some? && !Whole(x.cur.value) then [x.cur.value.task] else []) + x.queue
  }

  /** What connection c's writer on record has yet to write. */
  function Held(s: State, c: string): (ts: seq<Task>) {
    if c in s.attached && s.attached[c] < |s.writers| then Left(s.writers[s.attached[c]]) else []
  }

  /** The frame on c's wire in part. */
  function Partial(s: State, c: string): (b: seq<byte>) {
    if c in s.attached && s.attached[c] < |s.writers| && s.writers[s.attached[c]].cur.Some?
       && !Whole(s.writers[s.attached[c]].cur.value)
    then Span(s.writers[s.attached[c]].cur.value) else []
  }

  predicate Sized(cfg: Config, s: State) {
    Usable(cfg) && |s.shards| == |s.hands| == cfg.shards
  }

  /** Everything of c in the pipeline, first written first, then whatever c's shard has not passed on. */
  function Line(cfg: Config, s: State, c: string): (ts: seq<Task>)
    requires Sized(cfg, s)
  {
    var i := Shard(cfg, c);
    TasksOf(Past(s, c)) + Held(s, c) + Front(s, i)
  }

  /** What shard i still has to pass on, in order. */
  function Front(s: State, i: nat): (ts: seq<Task>)
    requires i < |s.hands| && i < |s.shards|
  {
    s.hands[i].Tasks() + s.shards[i]
  }

  /** References are in range and tasks sit where their connection says. */
  ghost predicate Shaped(cfg: Config, s: State) {
    && Sized(cfg, s)
    && (forall c <- s.attached :: s.attached[c] < |s.writers| && s.writers[s.attached[c]].conn == c)
    && (forall w :: 0 <= w < |s.writers| ==> WriterShaped(s, w))
    && (forall i :: 0 <= i < |s.hands| && s.hands[i].Resolved? ==>
          s.hands[i].w < |s.writers| && s.writers[s.hands[i].w].conn == s.hands[i].task.conn)
    && PastShaped(s)
  }

  ghost predicate PastShaped(s: State) {
    forall c <- s.past :: forall i :: 0 <= i < |s.past[c]| ==>
      s.past[c][i].task.conn == c && s.past[c][i].off <= |Image(s.past[c][i].task)|
  }

  predicate OnRecord(s: State, w: nat)
    requires w < |s.writers|
  {
    s.writers[w].conn in s.attached && s.attached[s.writers[w].conn] == w
  }

  /** A writer on record is open, and every writer has only its connection's tasks. */
  ghost predicate WriterShaped(s: State, w: nat)
    requires w < |s.writers|
  {
    var wr := s.writers[w];
    && (wr.closed ==> !OnRecord(s, w))
    && (forall i :: 0 <= i < |wr.queue| ==> wr.queue[i].conn == wr.conn)
    && (wr.cur.Some? ==> wr.cur.value.task.conn == wr.conn && wr.cur.value.off <= |Image(wr.cur.value.task)|)
    && (wr.cur.Some? && !wr.cur.value.task.hasCodec ==> wr.cur.value.off == 0)
  }

  /**
   Writer w has no byte left to write, and none is on its way there. If `strict`, it has no report
   left to make either.
   */
  predicate Resting(s: State, w: nat, strict: bool)
    requires w < |s.writers|
  {
    && (forall k :: 0 <= k < |s.writers[w].queue| ==> !s.writers[w].queue[k].hasCodec)
    && (s.writers[w].cur.Some? && s.writers[w].cur.value.task.hasCodec ==> !strict && Whole(s.writers[w].cur.value))
    && (forall i :: 0 <= i < |s.hands| && s.hands[i].Resolved? && s.hands[i].w == w ==> !s.hands[i].task.hasCodec)
  }

  /** CloseConn would find a writer for c that is not at rest. */
  predicate InUse(s: State, c: string, strict: bool) {
    c in s.attached && s.attached[c] < |s.writers| && !Resting(s, s.attached[c], strict)
  }

  /** Every writer of c is the one on record or at rest. */
  ghost predicate Tidy(s: State, c: string, strict: bool) {
    forall w :: 0 <= w < |s.writers| && s.writers[w].conn == c ==> OnRecord(s, w) || Resting(s, w, strict)
  }

  /** Every task is in the shard of its connection. */
  ghost predicate Placed(cfg: Config, s: State) {
    && Sized(cfg, s)
    && (forall i, k :: 0 <= i < |s.shards| && 0 <= k < |s.shards[i]| ==> Shard(cfg, s.shards[i][k].conn) == i)
    && (forall i :: 0 <= i < |s.hands| && !s.hands[i].Idle? ==> Shard(cfg, s.hands[i].task.conn) == i)
  }

  lemma StepKeepsPlaced(cfg: Config, s: State, a: Act)
    requires Placed(cfg, s) && Enabled(cfg, s, a)
    ensures Placed(cfg, Step(cfg, s, a))
  {
    hide Image;
    hide Shard;
  }

  /** c's tasks are in order of acceptance all the way from the wire to the shard queue. */
  ghost predicate InOrder(cfg: Config, s: State, c: string)
    requires Sized(cfg, s)
  {
    Ordered(Line(cfg, s, c), |s.accepted|)
  }

  /** The pipe holds what the ended writes put out, then what the current one has. */
  ghost predicate WellWritten(s: State, c: string) {
    Pipe(s, c) == Spans(Past(s, c)) + Partial(s, c)
  }

  /** The queues and hands before the writers: nothing about a writer changes. */
  lemma FrontKeepsShape(cfg: Config, s: State, a: Act)
    requires Shaped(cfg, s) && Enabled(cfg, s, a) && (a.Dispatch? || a.Take? || a.EnqueueFail? || a.Detach?)
    ensures Shaped(cfg, Step(cfg, s, a))
  {
    hide Image;
    var s' := Step(cfg, s, a);
    forall w | 0 <= w < |s'.writers| ensures WriterShaped(s', w) {
      assert WriterShaped(s, w);
    }
    hide WriterShaped;
  }

  lemma ResolveKeepsShape(cfg: Config, s: State, a: Act)
    requires Shaped(cfg, s) && Enabled(cfg, s, a) && a.Resolve?
    ensures Shaped(cfg, Step(cfg, s, a))
  {
    hide Image;
    var s' := Step(cfg, s, a);
    assert PastShaped(s');
    hide PastShaped;
    forall w | 0 <= w < |s'.writers| ensures WriterShaped(s', w) {
      if w < |s.writers| {
        assert WriterShaped(s, w);
        ResolveKeepsWriter(s, a.i, w);
      }
    }
    hide WriterShaped;
    ResolveKeepsLinks(cfg, s, a.i);
    hide Step;
  }

  lemma ResolveKeepsLinks(cfg: Config, s: State, i: nat)
    requires Shaped(cfg, s) && i < |s.hands| && s.hands[i].Holding?
    ensures var s' := DoResolve(s, i);
            && (forall c <- s'.attached :: s'.attached[c] < |s'.writers| && s'.writers[s'.attached[c]].conn == c)
            && (forall j :: 0 <= j < |s'.hands| && s'.hands[j].Resolved? ==>
                  s'.hands[j].w < |s'.writers| && s'.writers[s'.hands[j].w].conn == s'.hands[j].task.conn)
  {
    hide WriterShaped;
    hide PastShaped;
  }

  lemma ResolveKeepsWriter(s: State, i: nat, w: nat)
    requires i < |s.hands| && s.hands[i].Holding? && w < |s.writers| && WriterShaped(s, w)
    ensures WriterShaped(DoResolve(s, i), w)
  {
    hide Image;
  }

  /** A step that changes writer w only, keeping its connection. */
  lemma OneWriterKeepsShape(cfg: Config, s: State, s': State, w: nat, x: Writer)
    requires Shaped(cfg, s) && w < |s.writers| && x.conn == s.writers[w].conn
    requires s'.writers == s.writers[w := x] && s'.attached == s.attached
    requires s'.shards == s.shards && |s'.hands| == |s.hands|
    requires forall i :: 0 <= i < |s.hands| ==> s'.hands[i] == s.hands[i] || s'.hands[i].Idle?
    requires x.closed ==> s.writers[w].closed || !OnRecord(s, w)
    requires forall i :: 0 <= i < |x.queue| ==> x.queue[i].conn == x.conn
    requires x.cur.Some? ==> x.cur.value.task.conn == x.conn && x.cur.value.off <= |Image(x.cur.value.task)|
    requires x.cur.Some? && !x.cur.value.task.hasCodec ==> x.cur.value.off == 0
    requires PastShaped(s')
    ensures Shaped(cfg, s')
  {
    hide Image;
    hide PastShaped;
    forall v | 0 <= v < |s'.writers| ensures WriterShaped(s', v) {
      assert WriterShaped(s, v);
    }
    hide WriterShaped;
  }

  lemma WriterKeepsShape(cfg: Config, s: State, a: Act)
    requires Shaped(cfg, s) && Enabled(cfg, s, a) && (a.Enqueue? || a.Begin? || a.Stop? || a.Finish?)
    ensures Shaped(cfg, Step(cfg, s, a))
  {
    hide Image;
    var w := if a.Enqueue? then s.hands[a.i].w else a.w;
    assert WriterShaped(s, w);
    var s' := Step(cfg, s, a);
    assert PastShaped(s');
    hide PastShaped;
    OneWriterKeepsShape(cfg, s, s', w, s'.writers[w]);
  }

  lemma EndKeepsShape(cfg: Config, s: State, a: Act)
    requires Shaped(cfg, s) && Enabled(cfg, s, a) && (a.WriteSome? || a.Fail?)
    ensures Shaped(cfg, Step(cfg, s, a))
  {
    hide Image;
    assert WriterShaped(s, a.w);
    var s' := Step(cfg, s, a);
    EndKeepsPast(cfg, s, a);
    hide PastShaped;
    OneWriterKeepsShape(cfg, s, s', a.w, s'.writers[a.w]);
  }

  lemma EndKeepsPast(cfg: Config, s: State, a: Act)
    requires PastShaped(s) && Enabled(cfg, s, a) && (a.WriteSome? || a.Fail?) && WriterShaped(s, a.w)
    ensures PastShaped(Step(cfg, s, a))
  {
    hide Image;
  }

  lemma StepKeepsShape(cfg: Config, s: State, a: Act)
    requires Shaped(cfg, s) && Enabled(cfg, s, a)
    ensures Shaped(cfg, Step(cfg, s, a))
  {
    hide Shaped;
    hide Enabled;
    hide Step;
    if a.Dispatch? || a.Take? || a.EnqueueFail? || a.Detach? {
      FrontKeepsShape(cfg, s, a);
    } else if a.Resolve? {
      ResolveKeepsShape(cfg, s, a);
    } else if a.WriteSome? || a.Fail? {
      EndKeepsShape(cfg, s, a);
    } else {
      WriterKeepsShape(cfg, s, a);
    }
  }

  // A writer off the record stays at rest: nothing but a worker that found it there can load it.

  lemma RestingStays(cfg: Config, s: State, a: Act, w: nat, strict: bool)
    requires Enabled(cfg, s, a) && w < |s.writers| && Resting(s, w, strict)
    requires a.Resolve? ==> Step(cfg, s, a).hands[a.i].w != w
    ensures w < |Step(cfg, s, a).writers| && Resting(Step(cfg, s, a), w, strict)
  {
    hide Shard;
    hide Image;
    match a
    case Enqueue(i) => RestingAtEnqueue(s, i, w, strict);
    case Resolve(i) => RestingAtResolve(s, i, w, strict);
    case Begin(v) => RestingAtWriter(s, DoBegin(s, v), v, w, strict);
    case WriteSome(v, k) => RestingAtWriter(s, DoWrite(s, v, k), v, w, strict);
    case Finish(v) => RestingAtWriter(s, DoFinish(s, v), v, w, strict);
    case Fail(v) => RestingAtWriter(s, DoFail(s, v), v, w, strict);
    case Stop(v) => RestingAtWriter(s, DoStop(s, v), v, w, strict);
    case _ => RestingAtFront(cfg, s, a, w, strict);
  }

  lemma RestingAtFront(cfg: Config, s: State, a: Act, w: nat, strict: bool)
    requires Enabled(cfg, s, a) && w < |s.writers| && Resting(s, w, strict)
    requires a.Dispatch? || a.Take? || a.EnqueueFail? || a.Detach?
    ensures w < |Step(cfg, s, a).writers| && Resting(Step(cfg, s, a), w, strict)
  {
    hide Shard;
    hide Image;
  }

  /** A writer's own step takes tasks off its queue or ends the current one. */
  lemma RestingAtWriter(s: State, s': State, v: nat, w: nat, strict: bool)
    requires v < |s.writers| == |s'.writers| && w < |s.writers| && Resting(s, w, strict) && s'.hands == s.hands
    requires forall u :: 0 <= u < |s.writers| && u != v ==> s'.writers[u] == s.writers[u]
    requires var x, y := s.writers[v], s'.writers[v];
             || (y.queue == x.queue && (y.cur.None? || y.cur == x.cur))
             || (y.queue == x.queue && x.cur.Some? && !Whole(x.cur.value) && x.cur.value.task.hasCodec)
             || (y.queue == x.queue && x.cur.Some? && y.cur.Some?
                 && x.cur.value.task == y.cur.value.task && Whole(y.cur.value))
             || (x.queue != [] && y.queue == x.queue[1..] && y.cur.Some? && y.cur.value.task == x.queue[0])
    ensures Resting(s', w, strict)
  {
    hide Image;
  }

  lemma RestingAtResolve(s: State, i: nat, w: nat, strict: bool)
    requires i < |s.hands| && s.hands[i].Holding? && w < |s.writers| && Resting(s, w, strict)
    requires DoResolve(s, i).hands[i].w != w
    ensures Resting(DoResolve(s, i), w, strict)
  {
    hide Image;
  }

  lemma RestingAtEnqueue(s: State, i: nat, w: nat, strict: bool)
    requires i < |s.hands| && s.hands[i].Resolved? && s.hands[i].w < |s.writers|
    requires w < |s.writers| && Resting(s, w, strict)
    ensures Resting(DoEnqueue(s, i), w, strict)
  {
    hide Image;
  }

  /** Writers come and go on record only by Resolve and Detach. */
  lemma RecordStays(cfg: Config, s: State, a: Act, w: nat)
    requires Shaped(cfg, s) && Enabled(cfg, s, a) && w < |s.writers|
    ensures w < |Step(cfg, s, a).writers| && Step(cfg, s, a).writers[w].conn == s.writers[w].conn
    ensures OnRecord(s, w) && a != Detach(s.writers[w].conn) ==> OnRecord(Step(cfg, s, a), w)
    ensures a.Resolve? && Step(cfg, s, a).hands[a.i].w == w ==> OnRecord(Step(cfg, s, a), w)
  {
    hide Image;
    hide Shard;
    hide WriterShaped;
    hide PastShaped;
    if a.Resolve? {
      var c := s.hands[a.i].task.conn;
      assert c in s.attached ==> s.writers[s.attached[c]].conn == c;
      hide Shaped;
    } else {
      hide Shaped;
      assert a.Detach? || Step(cfg, s, a).attached == s.attached;
    }
  }

  lemma NewIsRecorded(cfg: Config, s: State, a: Act, w: nat)
    requires Enabled(cfg, s, a) && |s.writers| <= w < |Step(cfg, s, a).writers|
    ensures OnRecord(Step(cfg, s, a), w)
  {
    hide Image;
    hide Shard;
  }

  lemma StepKeepsTidy(cfg: Config, s: State, a: Act, c: string, strict: bool)
    requires Shaped(cfg, s) && Enabled(cfg, s, a) && Tidy(s, c, strict) && !(a == Detach(c) && InUse(s, c, strict))
    ensures Tidy(Step(cfg, s, a), c, strict)
  {
    hide Resting;
    hide Shaped;
    var s' := Step(cfg, s, a);
    hide Step;
    hide Enabled;
    forall w | 0 <= w < |s'.writers| && s'.writers[w].conn == c ensures OnRecord(s', w) || Resting(s', w, strict) {
      if w >= |s.writers| {
        NewIsRecorded(cfg, s, a, w);
      } else {
        RecordStays(cfg, s, a, w);
        if !OnRecord(s', w) {
          assert Resting(s, w, strict);
          RestingStays(cfg, s, a, w, strict);
        }
      }
    }
  }

  // The line of a connection only ever grows at its end or loses a stretch, so its order survives.

  lemma IncreasingWithout(a: seq<Task>, x: seq<Task>, b: seq<Task>)
    requires Increasing(a + x + b)
    ensures Increasing(a + b)
  {
    var full, cut := a + x + b, a + b;
    forall i, j | 0 <= i < j < |cut| ensures cut[i].ticket < cut[j].ticket {
      var i', j' := if i < |a| then i else i + |x|, if j < |a| then j else j + |x|;
      assert full[i'] == cut[i] && full[j'] == cut[j];
    }
  }

  /** The line after a step that accepts nothing: some stretch of it, possibly none, is gone. */
  ghost predicate Shrinks(before: seq<Task>, after: seq<Task>) {
    exists a, x, b :: before == a + x + b && after == a + b
  }

  ghost predicate Ordered(ts: seq<Task>, bound: nat) {
    Increasing(ts) && forall i :: 0 <= i < |ts| ==> ts[i].ticket < bound
  }

  lemma ShrinkingKeepsOrder(before: seq<Task>, after: seq<Task>, bound: nat)
    requires Shrinks(before, after) && Ordered(before, bound)
    ensures Ordered(after, bound)
  {
    var a, x, b :| before == a + x + b && after == a + b;
    IncreasingWithout(a, x, b);
    forall i | 0 <= i < |after| ensures after[i].ticket < bound {
      assert after[i] == before[if i < |a| then i else i + |x|];
    }
  }

  // Rearrangements of a line, as sequences.

  lemma PassOn(a: seq<Task>, h: seq<Task>, t: Task, later: seq<Task>)
    ensures a + (h + [t]) + ([] + later) == a + h + ([t] + later)
  {
  }

  lemma Record(a: seq<Task>, t: Task, q: seq<Task>, later: seq<Task>)
    ensures (a + [t]) + q + later == a + ([t] + q) + later
  {
  }

  lemma Skip(a: seq<Task>, x: seq<Task>, q: seq<Task>, later: seq<Task>)
    ensures Shrinks(a + (x + q) + later, a + q + later)
  {
    assert a + (x + q) + later == a + x + (q + later);
    assert a + q + later == a + (q + later);
  }

  lemma SkipFront(past: seq<Task>, t: Task, later: seq<Task>)
    ensures Shrinks(past + ([t] + later), past + ([] + later))
  {
    assert past + ([t] + later) == past + [t] + later;
    assert past + ([] + later) == past + later;
  }

  lemma ShrinksSame(ts: seq<Task>)
    ensures Shrinks(ts, ts)
  {
    assert ts == ts + [] + [] && ts == ts + [];
  }

  lemma OrderedSnoc(ts: seq<Task>, t: Task)
    requires Ordered(ts, t.ticket)
    ensures Ordered(ts + [t], t.ticket + 1)
  {
  }

  // The three parts of c's line after each kind of step.

  lemma LineAtDispatch(cfg: Config, s: State, t: Task, c: string)
    requires Sized(cfg, s) && t.ticket == |s.accepted| && Ordered(Line(cfg, s, c), |s.accepted|)
    ensures Ordered(Line(cfg, DoDispatch(cfg, s, t), c), |s.accepted| + 1)
  {
    hide Shard;
    hide Ordered;
    hide TasksOf;
    var s' := DoDispatch(cfg, s, t);
    assert Past(s', c) == Past(s, c) && Held(s', c) == Held(s, c);
    if Shard(cfg, t.conn) == Shard(cfg, c) {
      assert Line(cfg, s', c) == Line(cfg, s, c) + [t];
      OrderedSnoc(Line(cfg, s, c), t);
    } else {
      assert Line(cfg, s', c) == Line(cfg, s, c);
      assert Ordered(Line(cfg, s, c), |s.accepted| + 1) by { OrderedWeaker(Line(cfg, s, c), |s.accepted|); }
    }
  }

  lemma OrderedWeaker(ts: seq<Task>, bound: nat)
    requires Ordered(ts, bound)
    ensures Ordered(ts, bound + 1)
  {
  }

  lemma LineAtTake(cfg: Config, s: State, i: nat, c: string)
    requires Sized(cfg, s) && i < cfg.shards && s.shards[i] != [] && s.hands[i].Idle?
    ensures Line(cfg, DoTake(s, i), c) == Line(cfg, s, c)
  {
    hide Shard;
    assert Front(DoTake(s, i), i) == Front(s, i);
  }

  lemma LineAtEnqueueFail(cfg: Config, s: State, i: nat, c: string)
    requires Sized(cfg, s) && i < cfg.shards && s.hands[i].Resolved?
    ensures Shrinks(Line(cfg, s, c), Line(cfg, DoEnqueueFail(s, i), c))
  {
    hide Shard;
    hide Shrinks;
    if i == Shard(cfg, c) {
      SkipFront(TasksOf(Past(s, c)) + Held(s, c), s.hands[i].task, s.shards[i]);
    } else {
      ShrinksSame(Line(cfg, s, c));
    }
  }

  lemma LineAtResolve(cfg: Config, s: State, i: nat, c: string)
    requires Shaped(cfg, s) && i < cfg.shards && s.hands[i].Holding?
    ensures Line(cfg, DoResolve(s, i), c) == Line(cfg, s, c)
  {
    hide Shard;
    hide Image;
    hide WriterShaped;
    hide PastShaped;
    var s' := DoResolve(s, i);
    assert Held(s', c) == Held(s, c) && Past(s', c) == Past(s, c);
    hide Shaped;
    assert Front(s', Shard(cfg, c)) == Front(s, Shard(cfg, c));
  }

  /** In a tidy state, what has bytes left to write for c is the writer on record. */
  lemma SoleWriter(cfg: Config, s: State, w: nat, c: string, strict: bool)
    requires Shaped(cfg, s) && w < |s.writers| && Tidy(s, c, strict)
    ensures c in s.attached && s.attached[c] == w ==> s.writers[w].conn == c
    ensures var x := s.writers[w];
            x.cur.Some? && x.cur.value.task.hasCodec && (strict || !Whole(x.cur.value)) ==>
              (x.conn == c <==> c in s.attached && s.attached[c] == w)
  {
    hide Image;
    hide PastShaped;
    hide WriterShaped;
  }

  lemma LineAtEnqueue(cfg: Config, s: State, i: nat, c: string)
    requires Shaped(cfg, s) && i < cfg.shards && s.hands[i].Resolved? && Shard(cfg, s.hands[i].task.conn) == i
    ensures Shrinks(Line(cfg, s, c), Line(cfg, DoEnqueue(s, i), c))
  {
    hide Shrinks;
    hide PastShaped;
    hide WriterShaped;
    var s' := DoEnqueue(s, i);
    var Resolved(t, w) := s.hands[i];
    assert s.writers[w].conn == t.conn && (c in s.attached && s.attached[c] == w ==> t.conn == c);
    hide Shaped;
    hide Shard;
    if c in s.attached && s.attached[c] == w {
      LeftGains(s.writers[w], t);
      hide Left;
      assert Held(s', c) == Held(s, c) + [t];
      PassOn(TasksOf(Past(s, c)), Held(s, c), t, s.shards[i]);
      ShrinksSame(Line(cfg, s, c));
    } else {
      hide Left;
      assert Held(s', c) == Held(s, c);
      if i == Shard(cfg, c) {
        SkipFront(TasksOf(Past(s, c)) + Held(s, c), t, s.shards[i]);
      } else {
        ShrinksSame(Line(cfg, s, c));
      }
    }
  }

  lemma LeftGains(x: Writer, t: Task)
    ensures Left(x.(queue := x.queue + [t])) == Left(x) + [t]
  {
    hide Image;
  }

  lemma FrontSame(s: State, s': State, i: nat)
    requires i < |s.hands| && i < |s.shards| && s'.hands == s.hands && s'.shards == s.shards
    ensures Front(s', i) == Front(s, i)
  {
  }

  /** The write of task t is over: it moves from the writer to the log. */
  lemma LineAtEnd(cfg: Config, s: State, s': State, w: nat, c: string, e: Writing)
    requires Shaped(cfg, s) && Tidy(s, c, false) && w < |s.writers| == |s'.writers| && s.writers[w].cur.Some?
    requires s.writers[w].cur.value.task.hasCodec && !Whole(s.writers[w].cur.value)
    requires e.task == s.writers[w].cur.value.task
    requires s'.hands == s.hands && s'.shards == s.shards && s'.attached == s.attached
    requires s'.past == s.past[s.writers[w].conn := Past(s, s.writers[w].conn) + [e]]
    requires forall v :: 0 <= v < |s.writers| && v != w ==> s'.writers[v] == s.writers[v]
    requires Left(s'.writers[w]) == s.writers[w].queue
    ensures Line(cfg, s', c) == Line(cfg, s, c)
  {
    hide Shard;
    SoleWriter(cfg, s, w, c, false);
    hide Shaped;
    hide Tidy;
    var wr := s.writers[w];
    hide Front;
    if wr.conn == c {
      SpansSnoc(Past(s, c), e);
      assert Past(s', c) == Past(s, c) + [e] && Held(s, c) == [e.task] + wr.queue && Held(s', c) == wr.queue;
      hide Image;
      Record(TasksOf(Past(s, c)), e.task, wr.queue, Front(s, Shard(cfg, c)));
    } else {
      hide Image;
      hide Left;
      assert Held(s', c) == Held(s, c) && Past(s', c) == Past(s, c);
    }
    FrontSame(s, s', Shard(cfg, c));
  }

  /** A writer drops its current task, which is not in the log. */
  lemma LineAtDrop(cfg: Config, s: State, w: nat, c: string)
    requires Sized(cfg, s) && w < |s.writers| && s.writers[w].cur.Some? && !s.writers[w].cur.value.task.hasCodec
    requires !Whole(s.writers[w].cur.value)
    ensures Shrinks(Line(cfg, s, c), Line(cfg, DoFail(s, w), c))
  {
    hide Shard;
    hide Shrinks;
    var s' := DoFail(s, w);
    var wr := s.writers[w];
    hide Front;
    FrontSame(s, s', Shard(cfg, c));
    assert Past(s', c) == Past(s, c);
    if c in s.attached && s.attached[c] == w {
      var t := wr.cur.value.task;
      assert Held(s, c) == [t] + wr.queue && Held(s', c) == wr.queue;
      Skip(TasksOf(Past(s, c)), [t], wr.queue, Front(s, Shard(cfg, c)));
    } else {
      hide Left;
      assert Held(s', c) == Held(s, c);
      ShrinksSame(Line(cfg, s, c));
    }
  }

  /** A writer step that leaves the same tasks to write in the same order. */
  lemma LineAtWriter(cfg: Config, s: State, s': State, w: nat, c: string)
    requires Sized(cfg, s) && s'.hands == s.hands && s'.shards == s.shards && s'.attached == s.attached
    requires s'.past == s.past && w < |s.writers| && |s'.writers| == |s.writers|
    requires forall v :: 0 <= v < |s.writers| && v != w ==> s'.writers[v] == s.writers[v]
    requires Left(s'.writers[w]) == Left(s.writers[w])
    ensures Line(cfg, s', c) == Line(cfg, s, c)
  {
    hide Shard;
    hide Left;
  }

  lemma LineAtBegin(cfg: Config, s: State, w: nat, c: string)
    requires Sized(cfg, s) && w < |s.writers| && s.writers[w].cur.None? && s.writers[w].queue != []
    ensures Line(cfg, DoBegin(s, w), c) == Line(cfg, s, c)
  {
    ImageSize(s.writers[w].queue[0]);
    hide Image;
    assert Left(DoBegin(s, w).writers[w]) == Left(s.writers[w]);
    LineAtWriter(cfg, s, DoBegin(s, w), w, c);
  }

  lemma LineAtWrite(cfg: Config, s: State, w: nat, k: nat, c: string)
    requires Shaped(cfg, s) && Tidy(s, c, false) && w < |s.writers| && s.writers[w].cur.Some?
    requires s.writers[w].cur.value.task.hasCodec
    requires s.writers[w].cur.value.off + k <= |Image(s.writers[w].cur.value.task)|
    ensures Line(cfg, DoWrite(s, w, k), c) == Line(cfg, s, c)
  {
    hide Image;
    var s' := DoWrite(s, w, k);
    var Writing(t, off) := s.writers[w].cur.value;
    assert Sized(cfg, s);
    if off < |Image(t)| == off + k {
      assert Left(s'.writers[w]) == s.writers[w].queue;
      LineAtEnd(cfg, s, s', w, c, Writing(t, off + k));
    } else {
      hide Shaped;
      hide Tidy;
      LineAtWriter(cfg, s, s', w, c);
    }
  }

  lemma LineAtFinish(cfg: Config, s: State, w: nat, c: string)
    requires Sized(cfg, s) && w < |s.writers| && s.writers[w].cur.Some? && Whole(s.writers[w].cur.value)
    ensures Line(cfg, DoFinish(s, w), c) == Line(cfg, s, c)
  {
    hide Image;
    LineAtWriter(cfg, s, DoFinish(s, w), w, c);
  }

  lemma LineAtFail(cfg: Config, s: State, w: nat, c: string)
    requires Shaped(cfg, s) && Tidy(s, c, false) && w < |s.writers| && s.writers[w].cur.Some?
    requires s.writers[w].cur.value.task.hasCodec ==> s.writers[w].cur.value.off < |Image(s.writers[w].cur.value.task)|
    ensures Shrinks(Line(cfg, s, c), Line(cfg, DoFail(s, w), c))
  {
    assert WriterShaped(s, w) && Sized(cfg, s);
    ImageSize(s.writers[w].cur.value.task);
    hide Image;
    hide Shrinks;
    var s' := DoFail(s, w);
    if s.writers[w].cur.value.task.hasCodec {
      assert Left(s'.writers[w]) == s.writers[w].queue;
      LineAtEnd(cfg, s, s', w, c, s.writers[w].cur.value);
      ShrinksSame(Line(cfg, s, c));
    } else {
      hide Shaped;
      hide Tidy;
      LineAtDrop(cfg, s, w, c);
    }
  }

  lemma LineAtStop(cfg: Config, s: State, w: nat, c: string)
    requires Sized(cfg, s) && w < |s.writers|
    ensures Line(cfg, DoStop(s, w), c) == Line(cfg, s, c)
  {
    hide Image;
    LineAtWriter(cfg, s, DoStop(s, w), w, c);
  }

  /** What the detached writer still holds leaves the line. */
  lemma LineAtDetach(cfg: Config, s: State, d: string, c: string)
    requires Sized(cfg, s)
    ensures Shrinks(Line(cfg, s, c), Line(cfg, DoDetach(s, d), c))
  {
    hide Shrinks;
    hide Shard;
    hide Left;
    var s' := DoDetach(s, d);
    hide Front;
    FrontSame(s, s', Shard(cfg, c));
    if c == d {
      assert Held(s, c) + [] == Held(s, c);
      Skip(TasksOf(Past(s, c)), Held(s, c), [], Front(s, Shard(cfg, c)));
    } else {
      assert Held(s', c) == Held(s, c);
      ShrinksSame(Line(cfg, s, c));
    }
  }

  lemma LineAtHandAct(cfg: Config, s: State, a: Act, c: string)
    requires Shaped(cfg, s) && Enabled(cfg, s, a) && (a.Take? || a.Resolve?) && a.i < cfg.shards
    ensures Line(cfg, Step(cfg, s, a), c) == Line(cfg, s, c)
  {
    assert Sized(cfg, s);
    hide Image;
    hide Line;
    hide Shaped;
    hide Shard;
    hide DoTake;
    hide DoResolve;
    if a.Take? {
      LineAtTake(cfg, s, a.i, c);
    } else {
      LineAtResolve(cfg, s, a.i, c);
    }
  }

  lemma LineShrinksAtFront(cfg: Config, s: State, a: Act, c: string)
    requires Shaped(cfg, s) && Placed(cfg, s) && Enabled(cfg, s, a)
    requires a.Take? || a.Resolve? || a.Enqueue? || a.EnqueueFail? || a.Detach?
    ensures Shrinks(Line(cfg, s, c), Line(cfg, Step(cfg, s, a), c))
  {
    FrontIndex(cfg, s, a);
    hide Image;
    hide Shrinks;
    hide Line;
    hide Shaped;
    hide Placed;
    hide Shard;
    hide DoEnqueue;
    hide DoEnqueueFail;
    hide DoDetach;
    ShrinksSame(Line(cfg, s, c));
    if a.Detach? {
      LineAtDetach(cfg, s, a.conn, c);
    } else if a.EnqueueFail? {
      LineAtEnqueueFail(cfg, s, a.i, c);
    } else if a.Enqueue? {
      LineAtEnqueue(cfg, s, a.i, c);
    } else {
      LineAtHandAct(cfg, s, a, c);
      hide Step;
      hide Enabled;
    }
  }

  lemma FrontIndex(cfg: Config, s: State, a: Act)
    requires Shaped(cfg, s) && Placed(cfg, s) && Enabled(cfg, s, a)
    ensures Sized(cfg, s)
    ensures a.Take? || a.Resolve? || a.Enqueue? || a.EnqueueFail? ==> a.i < cfg.shards
    ensures a.Enqueue? ==> Shard(cfg, s.hands[a.i].task.conn) == a.i
  {
    hide Image;
    hide WriterShaped;
    hide PastShaped;
    hide Shard;
  }

  lemma LineAtWriterAct(cfg: Config, s: State, a: Act, c: string)
    requires Sized(cfg, s) && Enabled(cfg, s, a) && (a.Begin? || a.Finish? || a.Stop?)
    ensures Line(cfg, Step(cfg, s, a), c) == Line(cfg, s, c)
  {
    hide Image;
    hide Line;
    hide Sized;
    hide Shard;
    hide DoBegin;
    hide DoFinish;
    hide DoStop;
    match a
    case Finish(w) => LineAtFinish(cfg, s, w, c);
    case Begin(w) => LineAtBegin(cfg, s, w, c);
    case Stop(w) => LineAtStop(cfg, s, w, c);
  }

  lemma LineShrinksAtWriter(cfg: Config, s: State, a: Act, c: string)
    requires Shaped(cfg, s) && Enabled(cfg, s, a) && Tidy(s, c, false)
    requires a.Begin? || a.WriteSome? || a.Finish? || a.Fail? || a.Stop?
    ensures Shrinks(Line(cfg, s, c), Line(cfg, Step(cfg, s, a), c))
  {
    assert Sized(cfg, s);
    hide Image;
    hide Shrinks;
    hide Line;
    hide Shaped;
    hide Tidy;
    hide Sized;
    hide Shard;
    hide DoWrite;
    hide DoFail;
    ShrinksSame(Line(cfg, s, c));
    if a.Fail? {
      LineAtFail(cfg, s, a.w, c);
    } else if a.WriteSome? {
      LineAtWrite(cfg, s, a.w, a.k, c);
    } else {
      LineAtWriterAct(cfg, s, a, c);
      hide Step;
      hide Enabled;
    }
  }

  /** Only Dispatch accepts. */
  lemma AcceptedBy(cfg: Config, s: State, a: Act)
    requires Enabled(cfg, s, a)
    ensures !a.Dispatch? ==> Step(cfg, s, a).accepted == s.accepted
    ensures a.Dispatch? ==> |Step(cfg, s, a).accepted| == |s.accepted| + 1
  {
    hide Image;
    hide Shard;
  }

  lemma StepKeepsOrder(cfg: Config, s: State, a: Act, c: string)
    requires Shaped(cfg, s) && Placed(cfg, s) && Enabled(cfg, s, a) && InOrder(cfg, s, c) && Tidy(s, c, false)
    ensures InOrder(cfg, Step(cfg, s, a), c)
  {
    assert Sized(cfg, s);
    AcceptedBy(cfg, s, a);
    hide Shaped;
    hide Placed;
    hide Line;
    hide Ordered;
    hide Tidy;
    if a.Dispatch? {
      LineAtDispatch(cfg, s, Task(|s.accepted|, a.conn, a.frame, a.hasCodec, a.hasCallback), c);
      hide DoDispatch;
    } else {
      if a.Take? || a.Resolve? || a.Enqueue? || a.EnqueueFail? || a.Detach? {
        LineShrinksAtFront(cfg, s, a, c);
      } else {
        LineShrinksAtWriter(cfg, s, a, c);
      }
      hide Step;
      ShrinkingKeepsOrder(Line(cfg, s, c), Line(cfg, Step(cfg, s, a), c), |s.accepted|);
    }
  }

  // ---------------------------------------------------------------- the bytes on a pipe

  /** The writer, pipe and history of c are as they were. */
  predicate SameFor(s: State, s': State, c: string) {
    Pipe(s', c) == Pipe(s, c) && Past(s', c) == Past(s, c) && Partial(s', c) == Partial(s, c)
  }

  lemma SameKeepsWire(s: State, s': State, c: string)
    requires SameFor(s, s', c) && WellWritten(s, c)
    ensures WellWritten(s', c)
  {
    hide Partial;
    hide Spans;
  }

  lemma FrontIsQuiet(cfg: Config, s: State, a: Act, c: string)
    requires Enabled(cfg, s, a) && (a.Dispatch? || a.Take? || a.EnqueueFail? || a.Stop? || a.Enqueue?)
    ensures SameFor(s, Step(cfg, s, a), c)
  {
    hide Image;
    hide Shard;
    hide Span;
  }

  lemma ResolveIsQuiet(cfg: Config, s: State, a: Act, c: string)
    requires Shaped(cfg, s) && Enabled(cfg, s, a) && a.Resolve?
    ensures SameFor(s, Step(cfg, s, a), c)
  {
    hide Image;
    hide Shard;
    hide WriterShaped;
    hide PastShaped;
    hide Span;
  }

  /** A writer with no byte left to write leaves nothing unfinished. */
  lemma DetachIsQuiet(cfg: Config, s: State, d: string, c: string)
    requires Shaped(cfg, s) && !(c == d && InUse(s, c, false))
    ensures SameFor(s, DoDetach(s, d), c)
  {
    hide PastShaped;
    if c == d && c in s.attached {
      assert WriterShaped(s, s.attached[c]);
    }
  }

  lemma BeginKeepsWire(cfg: Config, s: State, w: nat, c: string)
    requires w < |s.writers| && s.writers[w].cur.None? && s.writers[w].queue != []
    ensures SameFor(s, DoBegin(s, w), c)
  {
    hide Image;
  }

  /** The writer on record puts out some of its frame, which stays unfinished. */
  lemma WriteKeepsWire(s: State, w: nat, k: nat, c: string)
    requires w < |s.writers| && s.writers[w].cur.Some? && s.writers[w].conn == c && WellWritten(s, c)
    requires c in s.attached && s.attached[c] == w
    requires s.writers[w].cur.value.off + k < |Image(s.writers[w].cur.value.task)|
    ensures WellWritten(DoWrite(s, w, k), c)
  {
    hide Image;
    hide Spans;
    var s' := DoWrite(s, w, k);
    assert Past(s', c) == Past(s, c);
    var Writing(t, off) := s.writers[w].cur.value;
    assert Image(t)[..off + k] == Image(t)[..off] + Image(t)[off..off + k];
    assert Partial(s', c) == Partial(s, c) + Image(t)[off..off + k];
  }

  /** The writer on record puts out the last of its frame. */
  lemma LastKeepsWire(s: State, w: nat, k: nat, c: string)
    requires w < |s.writers| && s.writers[w].cur.Some? && s.writers[w].conn == c && WellWritten(s, c)
    requires c in s.attached && s.attached[c] == w
    requires s.writers[w].cur.value.off < |Image(s.writers[w].cur.value.task)| == s.writers[w].cur.value.off + k
    ensures WellWritten(DoWrite(s, w, k), c)
  {
    hide Image;
    var s' := DoWrite(s, w, k);
    var Writing(t, off) := s.writers[w].cur.value;
    var e := Writing(t, off + k);
    assert Past(s', c) == Past(s, c) + [e] && Partial(s', c) == [] && Partial(s, c) == Image(t)[..off];
    assert Pipe(s', c) == Pipe(s, c) + Image(t)[off..off + k];
    LastPiece(Image(t), off);
    assert Span(e) == Image(t);
    SpansSnoc(Past(s, c), e);
    hide Spans;
    hide Span;
    hide Partial;
    hide Pipe;
    hide DoWrite;
    Rejoin(Spans(Past(s, c)), Image(t)[..off], Image(t)[off..off + k]);
  }

  lemma LastPiece(b: seq<byte>, off: nat)
    requires off <= |b|
    ensures b[..off] + b[off..|b|] == b && b[..|b|] == b
  {
  }

  lemma Rejoin(a: seq<byte>, b: seq<byte>, c: seq<byte>)
    ensures (a + b) + c == (a + (b + c)) + []
  {
  }

  /** The writer on record gives up: what it put out is now on the log. */
  lemma FailKeepsWire(s: State, w: nat, c: string)
    requires w < |s.writers| && s.writers[w].cur.Some? && s.writers[w].conn == c && WellWritten(s, c)
    requires c in s.attached && s.attached[c] == w
    requires s.writers[w].cur.value.task.hasCodec && s.writers[w].cur.value.off < |Image(s.writers[w].cur.value.task)|
    ensures WellWritten(DoFail(s, w), c)
  {
    hide Image;
    var s', cur := DoFail(s, w), s.writers[w].cur.value;
    SpansSnoc(Past(s, c), cur);
    assert Partial(s, c) == Span(cur) && Partial(s', c) == [] && Past(s', c) == Past(s, c) + [cur];
    hide Spans;
    hide Span;
  }

  /** Any other writer, or one that has nothing to write, leaves c's pipe alone. */
  lemma OthersKeepWire(cfg: Config, s: State, a: Act, c: string)
    requires Shaped(cfg, s) && Enabled(cfg, s, a) && (a.WriteSome? || a.Finish? || a.Fail?)
    requires var x := s.writers[a.w];
             || x.conn != c || (x.cur.value.task.hasCodec && Whole(x.cur.value)) || !x.cur.value.task.hasCodec
    ensures SameFor(s, Step(cfg, s, a), c)
  {
    assert WriterShaped(s, a.w);
    ImageSize(s.writers[a.w].cur.value.task);
    hide PastShaped;
    hide Image;
    assert c in s.attached && s.attached[c] == a.w ==> s.writers[a.w].conn == c;
    hide Shaped;
    match a
    case WriteSome(w, k) => OtherWriteIsQuiet(s, w, k, c);
    case Finish(w) => OtherEndIsQuiet(s, DoFinish(s, w), w, c);
    case Fail(w) => OtherEndIsQuiet(s, DoFail(s, w), w, c);
  }

  lemma OtherWriteIsQuiet(s: State, w: nat, k: nat, c: string)
    requires w < |s.writers| && s.writers[w].cur.Some?
    requires c in s.attached && s.attached[c] == w ==> s.writers[w].conn == c
    requires s.writers[w].cur.value.off + k <= |Image(s.writers[w].cur.value.task)|
    requires s.writers[w].conn == c ==> Whole(s.writers[w].cur.value)
    ensures SameFor(s, DoWrite(s, w, k), c)
  {
    hide Image;
    hide Span;
    if s.writers[w].conn == c {
      var Writing(t, off) := s.writers[w].cur.value;
      assert Image(t)[off..off + k] == [];
    }
  }

  lemma OtherEndIsQuiet(s: State, s': State, w: nat, c: string)
    requires w < |s.writers| && s.writers[w].cur.Some?
    requires c in s.attached && s.attached[c] == w ==> s.writers[w].conn == c
    requires s' == DoFinish(s, w) || s' == DoFail(s, w)
    requires s.writers[w].conn == c ==> s'.past == s.past
    requires s.writers[w].conn == c ==> Whole(s.writers[w].cur.value) || s.writers[w].cur.value.off == 0
    ensures SameFor(s, s', c)
  {
    hide Image;
  }

  lemma StepKeepsWire(cfg: Config, s: State, a: Act, c: string)
    requires Shaped(cfg, s) && Enabled(cfg, s, a) && Tidy(s, c, false) && WellWritten(s, c)
    requires !(a == Detach(c) && InUse(s, c, false))
    ensures WellWritten(Step(cfg, s, a), c)
  {
    hide InUse;
    hide WellWritten;
    hide Shaped;
    hide Image;
    hide SameFor;
    if a.WriteSome? || a.Finish? || a.Fail? {
      WriterKeepsWire(cfg, s, a, c);
      return;
    }
    hide Tidy;
    match a
    case Begin(w) =>
      BeginKeepsWire(cfg, s, w, c);
      SameKeepsWire(s, Step(cfg, s, a), c);
    case Resolve(_) =>
      ResolveIsQuiet(cfg, s, a, c);
      SameKeepsWire(s, Step(cfg, s, a), c);
    case Detach(d) =>
      DetachIsQuiet(cfg, s, d, c);
      SameKeepsWire(s, Step(cfg, s, a), c);
    case _ =>
      FrontIsQuiet(cfg, s, a, c);
      SameKeepsWire(s, Step(cfg, s, a), c);
  }

  lemma WriterKeepsWire(cfg: Config, s: State, a: Act, c: string)
    requires Shaped(cfg, s) && Enabled(cfg, s, a) && Tidy(s, c, false) && WellWritten(s, c)
    requires a.WriteSome? || a.Finish? || a.Fail?
    ensures WellWritten(Step(cfg, s, a), c)
  {
    hide WellWritten;
    hide Image;
    hide SameFor;
    var x := s.writers[a.w];
    SoleWriter(cfg, s, a.w, c, false);
    if x.conn != c || Whole(x.cur.value) || !x.cur.value.task.hasCodec {
      OthersKeepWire(cfg, s, a, c);
      SameKeepsWire(s, Step(cfg, s, a), c);
    } else {
      assert WriterShaped(s, a.w);
      hide Shaped;
      hide Tidy;
      match a
      case Fail(w) => FailKeepsWire(s, w, c);
      case WriteSome(w, k) =>
        if x.cur.value.off + k < |Image(x.cur.value.task)| {
          WriteKeepsWire(s, w, k, c);
        } else {
          LastKeepsWire(s, w, k, c);
        }
    }
  }

  // ---------------------------------------------------------------- over runs

  /** Every CloseConn for c in the run finds its writer at rest. */
  predicate GentleRun(cfg: Config, s: State, acts: seq<Act>, c: string, strict: bool)
    requires IsRun(cfg, s, acts)
    decreases |acts|
  {
    acts != [] ==>
      && !(acts[0] == Detach(c) && InUse(s, c, strict))
      && GentleRun(cfg, Step(cfg, s, acts[0]), acts[1..], c, strict)
  }

  /** A writer of c that is done with its bytes has them on the log. */
  ghost predicate CurLogged(s: State, c: string) {
    forall w :: 0 <= w < |s.writers| && s.writers[w].conn == c && DoneWriting(s.writers[w]) ==>
      s.writers[w].cur.value.task in TasksOf(Past(s, c))
  }

  predicate DoneWriting(x: Writer) { x.cur.Some? && x.cur.value.task.hasCodec && Whole(x.cur.value) }

  lemma StepKeepsCurLogged(cfg: Config, s: State, a: Act, c: string)
    requires Enabled(cfg, s, a) && CurLogged(s, c)
    ensures CurLogged(Step(cfg, s, a), c)
  {
    LogGrows(cfg, s, a, c);
    var s', e := Step(cfg, s, a), Logs(s, a);
    if e.Some? { SnocTasks(Past(s, c), e.value); }
    forall w | 0 <= w < |s'.writers| && s'.writers[w].conn == c && DoneWriting(s'.writers[w])
      ensures s'.writers[w].cur.value.task in TasksOf(Past(s', c))
    {
      CurBefore(cfg, s, a, w);
      hide Step;
      hide Enabled;
      hide Past;
      hide Logs;
      hide Image;
    }
  }

  /** A writer that is done with its bytes was so before, or this step put out the last of them. */
  lemma CurBefore(cfg: Config, s: State, a: Act, w: nat)
    requires Enabled(cfg, s, a) && w < |Step(cfg, s, a).writers| && DoneWriting(Step(cfg, s, a).writers[w])
    ensures w < |s.writers| && s.writers[w].conn == Step(cfg, s, a).writers[w].conn
    ensures var t := Step(cfg, s, a).writers[w].cur.value.task;
            || (DoneWriting(s.writers[w]) && s.writers[w].cur.value.task == t)
            || (Logs(s, a).Some? && a.w == w && Logs(s, a).value.task == t)
  {
    hide Shard;
    if a.Begin? {
      ImageSize(s.writers[a.w].queue[0]);
      hide Image;
      assert w != a.w;
    } else if a.WriteSome? && a.w == w {
      hide Image;
    } else {
      hide Image;
      hide Whole;
      assert w < |s.writers| && s.writers[w].cur == Step(cfg, s, a).writers[w].cur;
    }
  }

  /** All that holds of a connection whose writers were only taken away with no byte left to write. */
  ghost predicate Good(cfg: Config, s: State, c: string) {
    Shaped(cfg, s) && Placed(cfg, s) && Tidy(s, c, false) && InOrder(cfg, s, c) && WellWritten(s, c) && CurLogged(s, c)
  }

  lemma StepKeepsGood(cfg: Config, s: State, a: Act, c: string)
    requires Good(cfg, s, c) && Enabled(cfg, s, a) && !(a == Detach(c) && InUse(s, c, false))
    ensures Good(cfg, Step(cfg, s, a), c)
  {
    assert Sized(cfg, s);
    hide InUse;
    hide Shaped;
    hide Placed;
    hide Tidy;
    hide InOrder;
    hide WellWritten;
    hide CurLogged;
    hide Step;
    hide Enabled;
    StepKeepsCurLogged(cfg, s, a, c);
    StepKeepsShape(cfg, s, a);
    StepKeepsPlaced(cfg, s, a);
    StepKeepsTidy(cfg, s, a, c, false);
    StepKeepsOrder(cfg, s, a, c);
    StepKeepsWire(cfg, s, a, c);
  }

  lemma {:induction false} RunKeepsGood(cfg: Config, s: State, acts: seq<Act>, c: string)
    requires Good(cfg, s, c) && IsRun(cfg, s, acts) && GentleRun(cfg, s, acts, c, false)
    ensures Good(cfg, After(cfg, s, acts), c)
    decreases |acts|
  {
    hide Good;
    hide Step;
    hide InUse;
    if acts != [] {
      StepKeepsGood(cfg, s, acts[0], c);
      RunKeepsGood(cfg, Step(cfg, s, acts[0]), acts[1..], c);
    }
  }

  lemma StartIsGood(cfg: Config, c: string)
    requires Usable(cfg)
    ensures Good(cfg, Start(cfg), c)
  {
    assert Line(cfg, Start(cfg), c) == [];
  }

  /** `ts` is a subsequence of the tasks accepted for c, in order of acceptance. */
  ghost predicate SubsequenceFor(ts: seq<Task>, accepted: seq<Task>, c: string) {
    && (forall i :: 0 <= i < |ts| ==> ts[i].conn == c && ts[i].ticket < |accepted| && accepted[ts[i].ticket] == ts[i])
    && Increasing(ts)
  }

  // ---------------------------------------------------------------- logs and reports

  /** Some writer is at task t; if `whole`, all of it is out. */
  ghost predicate AtTask(s: State, t: Task, whole: bool) {
    exists w :: 0 <= w < |s.writers| && At(s.writers[w], t, whole)
  }

  predicate At(x: Writer, t: Task, whole: bool) {
    x.cur.Some? && x.cur.value.task == t && (whole ==> t.hasCodec && Whole(x.cur.value))
  }

  /** The task was reported, one way or the other, or some writer is at it. */
  ghost predicate Known(s: State, t: Task) {
    t in DoneTasks(s.done) || AtTask(s, t, false)
  }

  lemma DoneGrows(s: State, s': State, d: Done)
    requires s'.done == s.done + [d]
    ensures DoneTasks(s'.done) == DoneTasks(s.done) + [d.task]
  {
  }

  lemma StepKeepsKnown(cfg: Config, s: State, a: Act, t: Task)
    requires Enabled(cfg, s, a) && Known(s, t)
    ensures Known(Step(cfg, s, a), t)
  {
    hide Image;
    hide Shard;
    hide Whole;
    var s' := Step(cfg, s, a);
    if a.Finish? || a.Fail? {
      DoneGrows(s, s', Done(s.writers[a.w].cur.value.task, a.Finish?));
    } else if a.EnqueueFail? {
      DoneGrows(s, s', Done(s.hands[a.i].task, false));
    }
    if t !in DoneTasks(s'.done) {
      var w :| 0 <= w < |s.writers| && At(s.writers[w], t, false);
      assert At(s'.writers[w], t, false);
    }
  }

  /** What a step puts on its writer's log, if anything. */
  function Logs(s: State, a: Act): (e: Option<Writing>) {
    if !(a.WriteSome? || a.Fail?) || a.w >= |s.writers| || s.writers[a.w].cur.None? then None
    else
      var Writing(t, off) := s.writers[a.w].cur.value;
      if a.Fail? then if t.hasCodec then Some(Writing(t, off)) else None
      else if off < |Image(t)| == off + a.k then Some(Writing(t, off + a.k)) else None
  }

  lemma LogGrows(cfg: Config, s: State, a: Act, c: string)
    requires Enabled(cfg, s, a)
    ensures Past(Step(cfg, s, a), c) ==
            if Logs(s, a).Some? && s.writers[a.w].conn == c then Past(s, c) + [Logs(s, a).value] else Past(s, c)
    ensures Logs(s, a).Some? ==> a.w < |s.writers| && At(s.writers[a.w], Logs(s, a).value.task, false)
    ensures Logs(s, a).Some? ==> Whole(Logs(s, a).value) == a.WriteSome?
  {
    hide Image;
    hide Shard;
  }

  lemma {:induction false} LoggedAreKnown(cfg: Config, s: State, acts: seq<Act>, c: string, t: Task)
    requires IsRun(cfg, s, acts) && (t in TasksOf(Past(s, c)) ==> Known(s, t))
    ensures var s' := After(cfg, s, acts); t in TasksOf(Past(s', c)) ==> Known(s', t)
    decreases |acts|
  {
    if acts != [] {
      LoggedStep(cfg, s, acts[0], c, t);
      hide Step;
      hide Enabled;
      hide Known;
      hide Past;
      LoggedAreKnown(cfg, Step(cfg, s, acts[0]), acts[1..], c, t);
    }
  }

  lemma LoggedStep(cfg: Config, s: State, a: Act, c: string, t: Task)
    requires Enabled(cfg, s, a) && (t in TasksOf(Past(s, c)) ==> Known(s, t))
    ensures var s' := Step(cfg, s, a); t in TasksOf(Past(s', c)) ==> Known(s', t)
  {
    LogGrows(cfg, s, a, c);
    var s', e := Step(cfg, s, a), Logs(s, a);
    hide Step;
    hide Enabled;
    hide Past;
    hide Logs;
    if e.Some? {
      SnocTasks(Past(s, c), e.value);
      assert Known(s, e.value.task);
    }
    hide Known;
    hide TasksOf;
    if Known(s, t) { StepKeepsKnown(cfg, s, a, t); }
  }

  lemma SnocTasks(ws: seq<Writing>, w: Writing)
    ensures TasksOf(ws + [w]) == TasksOf(ws) + [w.task]
  {
  }

  lemma {:induction false} OccursMember(qs: seq<seq<Task>>, i: nat, t: Task)
    requires i < |qs| && t in qs[i]
    ensures Occurs(qs, t) >= 1
  {
    if i > 0 {
      OccursMember(qs[1..], i - 1, t);
    }
  }

  /** A task that was reported or is being written was accepted, and is found under its own ticket. */
  lemma KnownIsAccepted(cfg: Config, acts: seq<Act>, t: Task)
    requires IsRun(cfg, Start(cfg), acts) && Known(After(cfg, Start(cfg), acts), t)
    ensures var acc := After(cfg, Start(cfg), acts).accepted; t.ticket < |acc| && acc[t.ticket] == t
  {
    var s := After(cfg, Start(cfg), acts);
    ExactlyOnce(cfg, acts, t);
    TicketsAreIndices(cfg, Start(cfg), acts);
    hide After;
    hide IsRun;
    hide Whole;
    if t in DoneTasks(s.done) {
      assert Times(DoneTasks(s.done), t) >= 1;
    } else {
      var w :| 0 <= w < |s.writers| && At(s.writers[w], t, false);
      assert s.writers[w].Tasks()[0] == t;
      OccursMember(WriterQueues(s.writers), w, t);
    }
  }

  /**
   In every run, a task's last byte is on the pipe exactly when it was reported done without error
   or its writer is about to.
   */
  lemma {:induction false} WrittenIffReported(cfg: Config, s: State, acts: seq<Act>, t: Task)
    requires Shaped(cfg, s) && IsRun(cfg, s, acts)
    requires t in Sent(s, t.conn) <==> Done(t, true) in s.done || AtTask(s, t, true)
    ensures var s' := After(cfg, s, acts); t in Sent(s', t.conn) <==> Done(t, true) in s'.done || AtTask(s', t, true)
    decreases |acts|
  {
    if acts != [] {
      StepKeepsShape(cfg, s, acts[0]);
      ReportStep(cfg, s, acts[0], t);
      hide Shaped;
      hide Step;
      hide Enabled;
      hide Sent;
      hide AtTask;
      WrittenIffReported(cfg, Step(cfg, s, acts[0]), acts[1..], t);
    }
  }

  lemma ReportStep(cfg: Config, s: State, a: Act, t: Task)
    requires Shaped(cfg, s) && Enabled(cfg, s, a)
    requires t in Sent(s, t.conn) <==> Done(t, true) in s.done || AtTask(s, t, true)
    ensures var s' := Step(cfg, s, a); t in Sent(s', t.conn) <==> Done(t, true) in s'.done || AtTask(s', t, true)
  {
    hide Sent;
    var s' := Step(cfg, s, a);
    SentStep(cfg, s, a, t);
    AtStep(cfg, s, a, t);
    hide Shaped;
    hide AtTask;
    hide Step;
    hide Enabled;
  }

  /** The step puts out the last byte of t. */
  predicate Completes(s: State, a: Act, t: Task) {
    && a.WriteSome? && a.w < |s.writers| && s.writers[a.w].cur.Some? && s.writers[a.w].cur.value.task == t
    && s.writers[a.w].cur.value.off < |Image(t)| == s.writers[a.w].cur.value.off + a.k
  }

  lemma SentStep(cfg: Config, s: State, a: Act, t: Task)
    requires Shaped(cfg, s) && Enabled(cfg, s, a)
    ensures t in Sent(Step(cfg, s, a), t.conn) <==> t in Sent(s, t.conn) || Completes(s, a, t)
  {
    LogGrows(cfg, s, a, t.conn);
    CompletesIffLogged(cfg, s, a, t);
    var s', e := Step(cfg, s, a), Logs(s, a);
    hide Shaped;
    hide Step;
    hide Enabled;
    hide Past;
    hide Logs;
    hide Completes;
    if e.Some? { SpansSnoc(Past(s, t.conn), e.value); }
    hide WholeTasks;
    hide Image;
    hide TasksOf;
    hide Spans;
  }

  lemma CompletesIffLogged(cfg: Config, s: State, a: Act, t: Task)
    requires Shaped(cfg, s) && Enabled(cfg, s, a)
    ensures Completes(s, a, t) <==> Logs(s, a).Some? && Whole(Logs(s, a).value) && Logs(s, a).value.task == t
    ensures Completes(s, a, t) ==> s.writers[a.w].conn == t.conn
  {
    if a.WriteSome? { assert WriterShaped(s, a.w); }
    hide Shaped;
    hide Image;
  }

  lemma AtStep(cfg: Config, s: State, a: Act, t: Task)
    requires Shaped(cfg, s) && Enabled(cfg, s, a)
    ensures var s' := Step(cfg, s, a);
            Done(t, true) in s'.done || AtTask(s', t, true) <==>
                Done(t, true) in s.done || AtTask(s, t, true) || Completes(s, a, t)
  {
    if a.Begin? { ImageSize(s.writers[a.w].queue[0]); }
    if a.Fail? {
      assert WriterShaped(s, a.w);
      ImageSize(s.writers[a.w].cur.value.task);
    }
    hide Shaped;
    hide Image;
    hide Shard;
    AtStepForward(cfg, s, a, t);
    AtStepBack(cfg, s, a, t);
  }

  lemma AtStepForward(cfg: Config, s: State, a: Act, t: Task)
    requires Enabled(cfg, s, a)
    ensures Done(t, true) in s.done || AtTask(s, t, true) || Completes(s, a, t) ==>
              Done(t, true) in Step(cfg, s, a).done || AtTask(Step(cfg, s, a), t, true)
  {
    hide Image;
    hide Shard;
    var s' := Step(cfg, s, a);
    if Completes(s, a, t) {
      assert At(s'.writers[a.w], t, true);
    } else if Done(t, true) !in s.done && AtTask(s, t, true) {
      var w :| 0 <= w < |s.writers| && At(s.writers[w], t, true);
      if a.Finish? && a.w == w {
        assert s'.done[|s.done|] == Done(t, true);
      } else {
        assert At(s'.writers[w], t, true);
      }
    }
  }

  lemma AtStepBack(cfg: Config, s: State, a: Act, t: Task)
    requires Enabled(cfg, s, a) && (a.Begin? ==> |Image(s.writers[a.w].queue[0])| >= 32)
    ensures Done(t, true) in Step(cfg, s, a).done || AtTask(Step(cfg, s, a), t, true) ==>
              Done(t, true) in s.done || AtTask(s, t, true) || Completes(s, a, t)
  {
    hide Image;
    hide Shard;
    var s' := Step(cfg, s, a);
    if AtTask(s', t, true) {
      var w :| 0 <= w < |s'.writers| && At(s'.writers[w], t, true);
      if !Completes(s, a, t) {
        assert w < |s.writers| && At(s.writers[w], t, true);
      }
    } else if Done(t, true) in s'.done && Done(t, true) !in s.done {
      assert a.Finish? && At(s.writers[a.w], t, true);
    }
  }

  lemma PastInOrder(cfg: Config, s: State, c: string)
    requires Good(cfg, s, c)
    ensures Increasing(TasksOf(Past(s, c)))
    ensures forall i :: 0 <= i < |Past(s, c)| ==>
              Past(s, c)[i].task.conn == c && Past(s, c)[i].off <= |Image(Past(s, c)[i].task)|
  {
    hide WriterShaped;
    hide Held;
    hide Front;
    hide Image;
    hide WellWritten;
    hide Placed;
    hide Tidy;
    hide CurLogged;
    var line, ts := Line(cfg, s, c), TasksOf(Past(s, c));
    assert forall i :: 0 <= i < |ts| ==> line[i] == ts[i];
  }

  lemma {:induction false} WholeMembers(ws: seq<Writing>)
    ensures forall t <- WholeTasks(ws) :: exists i :: 0 <= i < |ws| && ws[i].task == t && Whole(ws[i])
    ensures forall i :: 0 <= i < |ws| && Whole(ws[i]) ==> ws[i].task in WholeTasks(ws)
    ensures Increasing(TasksOf(ws)) ==> Increasing(WholeTasks(ws))
  {
    hide Whole;
    if ws != [] {
      var init, last := ws[..|ws| - 1], ws[|ws| - 1];
      WholeMembers(init);
      if Increasing(TasksOf(ws)) {
        assert forall i :: 0 <= i < |init| ==> TasksOf(ws)[i] == TasksOf(init)[i];
        forall k | 0 <= k < |WholeTasks(init)| ensures WholeTasks(init)[k].ticket < last.task.ticket {
          assert WholeTasks(init)[k] in WholeTasks(init);
          var i :| 0 <= i < |init| && init[i].task == WholeTasks(init)[k] && Whole(init[i]);
          assert TasksOf(ws)[i].ticket < TasksOf(ws)[|ws| - 1].ticket;
        }
      }
    }
  }

  /**
   Ordering and wire format. In every interleaving in which each CloseConn for c finds its writer
   with no byte left to write:
   the writes that are over are those of a subsequence of the tasks accepted for c, in order of
   acceptance, and so are those whose last byte is out;
   the pipe holds what each of them put out, one after the other, then what the current one has;
   and these are whole frames, up to the current one, if and only if no write failed part-way.
   */
  lemma OrderedFrames(cfg: Config, acts: seq<Act>, c: string)
    requires Usable(cfg) && IsRun(cfg, Start(cfg), acts) && GentleRun(cfg, Start(cfg), acts, c, false)
    ensures var s := After(cfg, Start(cfg), acts);
            && SubsequenceFor(TasksOf(Past(s, c)), s.accepted, c)
            && SubsequenceFor(Sent(s, c), s.accepted, c)
            && Pipe(s, c) == Spans(Past(s, c)) + Partial(s, c)
            && (Pipe(s, c) == Codec.Wire(Frames(Sent(s, c))) + Partial(s, c) <==> Untorn(Past(s, c)))
  {
    StartIsGood(cfg, c);
    hide After;
    hide IsRun;
    hide GentleRun;
    hide Good;
    hide Start;
    RunKeepsGood(cfg, Start(cfg), acts, c);
    GoodPast(cfg, acts, c);
    GoodWire(cfg, After(cfg, Start(cfg), acts), c);
  }

  lemma GoodPast(cfg: Config, acts: seq<Act>, c: string)
    requires Usable(cfg) && IsRun(cfg, Start(cfg), acts) && Good(cfg, After(cfg, Start(cfg), acts), c)
    ensures var s := After(cfg, Start(cfg), acts);
            SubsequenceFor(TasksOf(Past(s, c)), s.accepted, c) && SubsequenceFor(Sent(s, c), s.accepted, c)
  {
    hide After;
    hide IsRun;
    hide Start;
    var s := After(cfg, Start(cfg), acts);
    PastInOrder(cfg, s, c);
    hide Good;
    var ws := Past(s, c);
    var ts := TasksOf(ws);
    hide Past;
    hide Image;
    forall i | 0 <= i < |ts| ensures ts[i].ticket < |s.accepted| && s.accepted[ts[i].ticket] == ts[i] {
      assert ts[i] in ts;
      LoggedIsAccepted(cfg, acts, c, ts[i]);
    }
    WholeSubsequence(ws, s.accepted, c);
  }

  lemma LoggedIsAccepted(cfg: Config, acts: seq<Act>, c: string, t: Task)
    requires IsRun(cfg, Start(cfg), acts) && t in TasksOf(Past(After(cfg, Start(cfg), acts), c))
    ensures var acc := After(cfg, Start(cfg), acts).accepted; t.ticket < |acc| && acc[t.ticket] == t
  {
    assert Past(Start(cfg), c) == [];
    hide After;
    hide IsRun;
    hide Start;
    hide Known;
    LoggedAreKnown(cfg, Start(cfg), acts, c, t);
    KnownIsAccepted(cfg, acts, t);
  }

  lemma WholeSubsequence(ws: seq<Writing>, accepted: seq<Task>, c: string)
    requires SubsequenceFor(TasksOf(ws), accepted, c)
    ensures SubsequenceFor(WholeTasks(ws), accepted, c)
  {
    hide Image;
    WholeMembers(ws);
    var ts, whole := TasksOf(ws), WholeTasks(ws);
    hide WholeTasks;
    forall k | 0 <= k < |whole|
      ensures whole[k].conn == c && whole[k].ticket < |accepted| && accepted[whole[k].ticket] == whole[k]
    {
      assert whole[k] in whole;
      var i :| 0 <= i < |ws| && ws[i].task == whole[k] && Whole(ws[i]);
      assert ts[i] == whole[k];
    }
  }

  lemma GoodWire(cfg: Config, s: State, c: string)
    requires Good(cfg, s, c)
    ensures Pipe(s, c) == Spans(Past(s, c)) + Partial(s, c)
    ensures Pipe(s, c) == Codec.Wire(Frames(Sent(s, c))) + Partial(s, c) <==> Untorn(Past(s, c))
  {
    PastInOrder(cfg, s, c);
    assert WellWritten(s, c);
    hide Good;
    WholeFramesIff(Past(s, c));
    hide Spans;
    hide WholeTasks;
    hide Image;
    hide Untorn;
    hide Partial;
    SameEnd(Spans(Past(s, c)), Codec.Wire(Frames(Sent(s, c))), Partial(s, c));
  }

  lemma SameEnd(a: seq<byte>, b: seq<byte>, x: seq<byte>)
    ensures a + x == b + x <==> a == b
  {
    if a + x == b + x {
      assert |a| == |b|;
      assert (a + x)[..|a|] == a && (b + x)[..|b|] == b;
    }
  }

  // ---------------------------------------------------------------- what the peer reads

  /**
   What the peer makes of it: unless a write failed part-way, reading the pipe so far yields exactly
   the frames whose last byte is out, in order, whatever is still in progress behind them.
   */
  lemma PeerReadsWhatWasSent(cfg: Config, acts: seq<Act>, c: string, end: Codec.IOErr)
    requires Usable(cfg) && IsRun(cfg, Start(cfg), acts) && GentleRun(cfg, Start(cfg), acts, c, false)
    requires Untorn(Past(After(cfg, Start(cfg), acts), c))
    requires forall t <- After(cfg, Start(cfg), acts).accepted :: Codec.Sendable(t.frame)
    ensures var s := After(cfg, Start(cfg), acts);
            Codec.DecodeAll(Pipe(s, c), end).frames == Codec.Normals(Frames(Sent(s, c)))
  {
    hide After;
    hide IsRun;
    hide GentleRun;
    hide Untorn;
    OrderedFrames(cfg, acts, c);
    StartIsGood(cfg, c);
    hide Start;
    hide Good;
    RunKeepsGood(cfg, Start(cfg), acts, c);
    var s := After(cfg, Start(cfg), acts);
    AllSendable(s, c);
    if Partial(s, c) != [] {
      CurrentIsAccepted(cfg, acts, c);
    }
    ReadOnWire(s, c, end);
  }

  lemma CurrentIsAccepted(cfg: Config, acts: seq<Act>, c: string)
    requires IsRun(cfg, Start(cfg), acts) && Partial(After(cfg, Start(cfg), acts), c) != []
    ensures var s := After(cfg, Start(cfg), acts); s.writers[s.attached[c]].cur.value.task in s.accepted
  {
    var s := After(cfg, Start(cfg), acts);
    hide After;
    hide IsRun;
    hide Image;
    var t := s.writers[s.attached[c]].cur.value.task;
    assert At(s.writers[s.attached[c]], t, false);
    assert Known(s, t);
    KnownIsAccepted(cfg, acts, t);
    assert s.accepted[t.ticket] in s.accepted;
  }

  lemma ReadOnWire(s: State, c: string, end: Codec.IOErr)
    requires forall f <- Frames(Sent(s, c)) :: Codec.Sendable(f)
    requires Partial(s, c) != [] ==> Codec.Sendable(s.writers[s.attached[c]].cur.value.task.frame)
    requires Pipe(s, c) == Codec.Wire(Frames(Sent(s, c))) + Partial(s, c)
    ensures Codec.DecodeAll(Pipe(s, c), end).frames == Codec.Normals(Frames(Sent(s, c)))
  {
    hide Image;
    hide Sent;
    hide Pipe;
    hide Codec.DecodeAll;
    hide Codec.Wire;
    hide Codec.Normals;
    hide Codec.Sendable;
    var fs, cut := Frames(Sent(s, c)), Partial(s, c);
    if cut != [] {
      var Writing(t, off) := s.writers[s.attached[c]].cur.value;
      PartialRead(fs, t, off, cut, end);
    } else {
      WholeRead(fs, end);
      assert Codec.Wire(fs) + cut == Codec.Wire(fs);
    }
  }

  lemma WholeRead(fs: seq<Codec.Frame>, end: Codec.IOErr)
    requires forall f <- fs :: Codec.Sendable(f)
    ensures Codec.DecodeAll(Codec.Wire(fs), end).frames == Codec.Normals(fs)
  {
    assert Codec.DecodeAll([], end).frames == [];
    hide Codec.DecodeAll;
    hide Codec.Sendable;
    Codec.StreamLaw(fs, [], end);
    hide Codec.Wire;
    assert Codec.Wire(fs) + [] == Codec.Wire(fs);
    assert Codec.Normals(fs) + [] == Codec.Normals(fs);
  }

  lemma AllSendable(s: State, c: string)
    requires SubsequenceFor(Sent(s, c), s.accepted, c) && forall t <- s.accepted :: Codec.Sendable(t.frame)
    ensures forall f <- Frames(Sent(s, c)) :: Codec.Sendable(f)
  {
    var ts := Sent(s, c);
    hide Sent;
    forall i | 0 <= i < |ts| ensures Codec.Sendable(Frames(ts)[i]) {
      assert s.accepted[ts[i].ticket] in s.accepted;
    }
  }

  /** Whole frames followed by the first `off` bytes of one more, not all of them. */
  lemma PartialRead(fs: seq<Codec.Frame>, t: Task, off: nat, cut: seq<byte>, end: Codec.IOErr)
    requires (forall f <- fs :: Codec.Sendable(f)) && Codec.Sendable(t.frame)
    requires off < |Image(t)| && cut == Image(t)[..off]
    ensures Codec.DecodeAll(Codec.Wire(fs) + cut, end).frames == Codec.Normals(fs)
  {
    hide FrameBytes;
    Codec.CutStream(fs, t.frame, off, end);
  }
}
