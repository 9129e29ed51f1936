/**
 The send scheduler: shard queues drained by one worker each, one writer per connection with
 its own queue, and CloseConn detaching and stopping a writer at any moment. Every goroutine's
 atomic action is one step, and steps interleave freely. Runs end before shutdown.
 */
module SendScheduler {
  import opened Bytes
  import opened Header
  import opened Remainders
  import Codec

  /** A send request. `ticket` is its position in the order of acceptance by Dispatch. */
  datatype Task = Task(ticket: nat, conn: string, frame: Codec.Frame, hasCodec: bool, hasCallback: bool)

  /** What a shard worker is doing: nothing, about to look up the writer, about to enqueue. */
  datatype Hand = Idle | Holding(task: Task) | Resolved(task: Task, w: nat) {
    function Tasks(): (ts: seq<Task>) { if Idle? then [] else [task] }
  }

  /** A frame put on the wire up to byte `off`. */
  datatype Writing = Writing(task: Task, off: nat)

  datatype Writer = Writer(conn: string, queue: seq<Task>, cur: Option<Writing>, closed: bool) {
    function Current(): (ts: seq<Task>) { if cur.None? then [] else [cur.value.task] }
    function Tasks(): (ts: seq<Task>) { Current() + queue }
  }

  datatype Done = Done(task: Task, ok: bool)

  /** Number of shards, the connection hash (a fixed function of the ID), and whether enqueueing can time out. */
  datatype Config = Config(shards: nat, hash: string -> u32, timed: bool)

  /**
   `attached` is the writers map; a writer taken out of it lives on in `writers`. The rest is
   history: tasks accepted, tasks completed, and per connection the bytes on its pipe, the writes
   whose last byte is out in that order (with those that failed and how far they got), and the
   tasks reported as written in the order of the reports.
   */
  datatype State = State(
    shards: seq<seq<Task>>, hands: seq<Hand>, writers: seq<Writer>, attached: map<string, nat>,
    accepted: seq<Task>, done: seq<Done>, pipes: map<string, seq<byte>>, past: map<string, seq<Writing>>,
    reported: map<string, seq<Task>>)

  /** At least one shard, and no division by zero: the modulus is the count cut to 32 bits. */
  predicate Usable(cfg: Config) {
    cfg.shards == 1 || (cfg.shards > 1 && cfg.shards % 0x1_0000_0000 != 0)
  }

  function Start(cfg: Config): (s: State) {
    State(seq(cfg.shards, _ => []), seq(cfg.shards, _ => Idle), [], map[], [], [], map[], map[], map[])
  }

  datatype Act =
    | Dispatch(conn: string, frame: Codec.Frame, hasCodec: bool, hasCallback: bool)
    | Take(i: nat)
    | Resolve(i: nat)
    | Enqueue(i: nat)
    | EnqueueFail(i: nat)
    | Begin(w: nat)
    | WriteSome(w: nat, k: nat)
    | Finish(w: nat)
    | Fail(w: nat)
    | Detach(conn: string)
    | Stop(w: nat)

  /** selectQueue: a fixed shard per connection ID. */
  function Shard(cfg: Config, conn: string): (i: nat)
    requires Usable(cfg)
    ensures i < cfg.shards
  {
    if cfg.shards == 1 then 0 else cfg.hash(conn) % (cfg.shards % 0x1_0000_0000)
  }

  function Image(t: Task): (b: seq<byte>) { FrameBytes(t.frame.hdr, t.frame.payload) }

  function Pipe(s: State, c: string): (b: seq<byte>) { if c in s.pipes then s.pipes[c] else [] }
  function Past(s: State, c: string): (ws: seq<Writing>) { if c in s.past then s.past[c] else [] }

  function Reported(s: State, c: string): (ts: seq<Task>) { if c in s.reported then s.reported[c] else [] }

  predicate Enabled(cfg: Config, s: State, a: Act) {
    match a
    case Dispatch(_, _, _, _) => Usable(cfg) && |s.shards| == cfg.shards
    case Take(i) => i < |s.shards| && i < |s.hands| && s.hands[i].Idle? && s.shards[i] != []
    case Resolve(i) => i < |s.hands| && s.hands[i].Holding?
    case Enqueue(i) =>
      && i < |s.hands| && s.hands[i].Resolved?
      && s.hands[i].w < |s.writers| && !s.writers[s.hands[i].w].closed
    case EnqueueFail(i) =>
      && i < |s.hands| && s.hands[i].Resolved?
      && (cfg.timed || (s.hands[i].w < |s.writers| && s.writers[s.hands[i].w].closed))
    case Begin(w) => w < |s.writers| && s.writers[w].cur.None? && s.writers[w].queue != []
    case WriteSome(w, k) =>
      && w < |s.writers| && s.writers[w].cur.Some? && s.writers[w].cur.value.task.hasCodec
      && s.writers[w].cur.value.off + k <= |Image(s.writers[w].cur.value.task)|
    case Finish(w) =>
      && w < |s.writers| && s.writers[w].cur.Some? && s.writers[w].cur.value.task.hasCodec
      && s.writers[w].cur.value.off == |Image(s.writers[w].cur.value.task)|
    case Fail(w) =>
      && w < |s.writers| && s.writers[w].cur.Some?
      && (s.writers[w].cur.value.task.hasCodec ==> s.writers[w].cur.value.off < |Image(s.writers[w].cur.value.task)|)
    case Detach(_) => true
    case Stop(w) => w < |s.writers| && forall c <- s.attached :: s.attached[c] != w
  }

  /** Dispatch, when the shard channel takes the task (a refused dispatch changes nothing). */
  function DoDispatch(cfg: Config, s: State, t: Task): (s': State)
    requires Usable(cfg) && |s.shards| == cfg.shards
  {
    var i := Shard(cfg, t.conn);
    s.(shards := s.shards[i := s.shards[i] + [t]], accepted := s.accepted + [t])
  }

  /** The shard worker receives from its channel. */
  function DoTake(s: State, i: nat): (s': State)
    requires i < |s.shards| && i < |s.hands| && s.shards[i] != []
  {
    s.(shards := s.shards[i := s.shards[i][1..]], hands := s.hands[i := Holding(s.shards[i][0])])
  }

  /** getOrCreateWriter. */
  function DoResolve(s: State, i: nat): (s': State)
    requires i < |s.hands| && s.hands[i].Holding?
  {
    var t := s.hands[i].task;
    if t.conn in s.attached then s.(hands := s.hands[i := Resolved(t, s.attached[t.conn])])
    else s.(hands := s.hands[i := Resolved(t, |s.writers|)],
            writers := s.writers + [Writer(t.conn, [], None, false)],
            attached := s.attached[t.conn := |s.writers|])
  }

  /** connWriter.enqueue succeeds. */
  function DoEnqueue(s: State, i: nat): (s': State)
    requires i < |s.hands| && s.hands[i].Resolved? && s.hands[i].w < |s.writers|
  {
    var Resolved(t, w) := s.hands[i];
    s.(hands := s.hands[i := Idle], writers := s.writers[w := s.writers[w].(queue := s.writers[w].queue + [t])])
  }

  /** connWriter.enqueue fails: writer closed, or the queue stayed full too long. */
  function DoEnqueueFail(s: State, i: nat): (s': State)
    requires i < |s.hands| && s.hands[i].Resolved?
  {
    s.(hands := s.hands[i := Idle], done := s.done + [Done(s.hands[i].task, false)])
  }

  /** The writer goroutine receives from its channel. */
  function DoBegin(s: State, w: nat): (s': State)
    requires w < |s.writers| && s.writers[w].queue != []
  {
    var wr := s.writers[w];
    s.(writers := s.writers[w := wr.(queue := wr.queue[1..], cur := Some(Writing(wr.queue[0], 0)))])
  }

  /** Some more bytes of the current frame reach the pipe. */
  function DoWrite(s: State, w: nat, k: nat): (s': State)
    requires w < |s.writers| && s.writers[w].cur.Some?
    requires s.writers[w].cur.value.off + k <= |Image(s.writers[w].cur.value.task)|
  {
    var wr := s.writers[w];
    var Writing(t, off) := wr.cur.value;
    s.(writers := s.writers[w := wr.(cur := Some(Writing(t, off + k)))],
       pipes := s.pipes[wr.conn := Pipe(s, wr.conn) + Image(t)[off..off + k]],
       past := if off < |Image(t)| == off + k
               then s.past[wr.conn := Past(s, wr.conn) + [Writing(t, off + k)]] else s.past)
  }

  /** The write returns nil, which it does exactly when the whole frame is out. */
  function DoFinish(s: State, w: nat): (s': State)
    requires w < |s.writers| && s.writers[w].cur.Some?
  {
    var wr := s.writers[w];
    s.(writers := s.writers[w := wr.(cur := None)], done := s.done + [Done(wr.cur.value.task, true)],
       reported := s.reported[wr.conn := Reported(s, wr.conn) + [wr.cur.value.task]])
  }

  /** The write returns an error: no codec, so nothing was tried, or no pipe, or the pipe failed part-way. */
  function DoFail(s: State, w: nat): (s': State)
    requires w < |s.writers| && s.writers[w].cur.Some?
  {
    var wr := s.writers[w];
    s.(writers := s.writers[w := wr.(cur := None)], done := s.done + [Done(wr.cur.value.task, false)],
       past := if wr.cur.value.task.hasCodec then s.past[wr.conn := Past(s, wr.conn) + [wr.cur.value]] else s.past)
  }

  /** CloseConn, first half: the writer leaves the map. */
  function DoDetach(s: State, c: string): (s': State) {
    s.(attached := s.attached - {c})
  }

  /** CloseConn, second half: the writer's channel is closed. What it holds is still drained. */
  function DoStop(s: State, w: nat): (s': State)
    requires w < |s.writers|
  {
    s.(writers := s.writers[w := s.writers[w].(closed := true)])
  }

  function Step(cfg: Config, s: State, a: Act): (s': State)
    requires Enabled(cfg, s, a)
    ensures |s'.shards| == |s.shards| && |s'.hands| == |s.hands|
  {
    match a
    case Dispatch(conn, frame, hasCodec, hasCallback) =>
      DoDispatch(cfg, s, Task(|s.accepted|, conn, frame, hasCodec, hasCallback))
    case Take(i) => DoTake(s, i)
    case Resolve(i) => DoResolve(s, i)
    case Enqueue(i) => DoEnqueue(s, i)
    case EnqueueFail(i) => DoEnqueueFail(s, i)
    case Begin(w) => DoBegin(s, w)
    case WriteSome(w, k) => DoWrite(s, w, k)
    case Finish(w) => DoFinish(s, w)
    case Fail(w) => DoFail(s, w)
    case Detach(c) => DoDetach(s, c)
    case Stop(w) => DoStop(s, w)
  }

  predicate IsRun(cfg: Config, s: State, acts: seq<Act>)
    decreases |acts|
  {
    acts != [] ==> Enabled(cfg, s, acts[0]) && IsRun(cfg, Step(cfg, s, acts[0]), acts[1..])
  }

  function After(cfg: Config, s: State, acts: seq<Act>): (s': State)
    requires IsRun(cfg, s, acts)
    decreases |acts|
  {
    if acts == [] then s else After(cfg, Step(cfg, s, acts[0]), acts[1..])
  }

  // ---------------------------------------------------------------- what is accepted

  /** The task is what the request asked for. */
  predicate Answers(t: Task, a: Act) {
    a.Dispatch? && t.conn == a.conn && t.frame == a.frame && t.hasCodec == a.hasCodec && t.hasCallback == a.hasCallback
  }

  /** The shard of a connection: its hash modulo the number of shards, cut to 32 bits. */
  lemma ShardExactly(cfg: Config, conn: string)
    requires Usable(cfg)
    ensures var m := cfg.shards % 0x1_0000_0000;
            cfg.shards > 1 ==> Remainder(Shard(cfg, conn), cfg.hash(conn), m)
  {
    if cfg.shards > 1 { RemainderOf(cfg.hash(conn), cfg.shards % 0x1_0000_0000); }
  }

  /** A dispatch accepts one task, the one asked for, at the end of its connection's shard; nothing else changes. */
  lemma DispatchExactly(cfg: Config, s: State, a: Act)
    requires Enabled(cfg, s, a) && a.Dispatch?
    ensures var s', i, n := Step(cfg, s, a), Shard(cfg, a.conn), |s.accepted|;
            && |s'.accepted| == n + 1 && s'.accepted[..n] == s.accepted && Answers(s'.accepted[n], a)
            && s'.accepted[n].ticket == n
            && s'.shards == s.shards[i := s.shards[i] + [s'.accepted[n]]]
            && s' == s.(shards := s'.shards, accepted := s'.accepted)
  {
  }

  /** The requests among a run's actions. */
  function Requests(acts: seq<Act>): (rs: seq<Act>) {
    if acts == [] then [] else (if acts[0].Dispatch? then [acts[0]] else []) + Requests(acts[1..])
  }

  predicate AllAnswer(ts: seq<Task>, rs: seq<Act>) {
    |ts| == |rs| && forall k :: 0 <= k < |rs| ==> Answers(ts[k], rs[k])
  }

  /** Over every run: the tasks accepted are the requests made, each as it was made and in that order. */
  lemma {:induction false} AcceptedAreRequests(cfg: Config, s: State, acts: seq<Act>) returns (ts: seq<Task>)
    requires IsRun(cfg, s, acts)
    ensures After(cfg, s, acts).accepted == s.accepted + ts && AllAnswer(ts, Requests(acts))
    decreases |acts|
  {
    if acts == [] {
      return [];
    }
    AcceptedStep(cfg, s, acts[0]);
    var s1 := Step(cfg, s, acts[0]);
    hide Step;
    hide Enabled;
    hide Answers;
    var rest := AcceptedAreRequests(cfg, s1, acts[1..]);
    if acts[0].Dispatch? {
      var t := s1.accepted[|s.accepted|];
      assert s1.accepted == s.accepted + [t];
      ts := [t] + rest;
      assert s.accepted + [t] + rest == s.accepted + ts;
      AnswersCons(t, acts[0], rest, Requests(acts[1..]));
    } else {
      ts := rest;
      assert Requests(acts) == Requests(acts[1..]);
    }
  }

  lemma AnswersCons(t: Task, a: Act, ts: seq<Task>, rs: seq<Act>)
    requires Answers(t, a) && AllAnswer(ts, rs)
    ensures AllAnswer([t] + ts, [a] + rs)
  {
    hide Answers;
    forall k | 0 <= k < |rs| + 1 ensures Answers(([t] + ts)[k], ([a] + rs)[k]) {
      if k > 0 { assert Answers(ts[k - 1], rs[k - 1]); }
    }
  }

  lemma AcceptedStep(cfg: Config, s: State, a: Act)
    requires Enabled(cfg, s, a)
    ensures var acc, n := Step(cfg, s, a).accepted, |s.accepted|;
            if a.Dispatch? then |acc| == n + 1 && acc[..n] == s.accepted && Answers(acc[n], a) else acc == s.accepted
  {
    hide Image;
    hide Shard;
  }

  // ---------------------------------------------------------------- closed writers

  /** What is left of a queue from which only the oldest tasks were taken. */
  predicate Drains(q: seq<Task>, q': seq<Task>) {
    |q'| <= |q| && q' == q[|q| - |q'|..]
  }

  lemma ClosedStep(cfg: Config, s: State, a: Act, w: nat)
    requires Enabled(cfg, s, a) && w < |s.writers| && s.writers[w].closed
    ensures var s' := Step(cfg, s, a);
            w < |s'.writers| && s'.writers[w].closed && Drains(s.writers[w].queue, s'.writers[w].queue)
  {
    hide Image;
    hide Shard;
  }

  /** Once stopped, a writer stays so and only drains: in every run that follows it is handed no task. */
  lemma {:induction false} ClosedOnlyDrains(cfg: Config, s: State, acts: seq<Act>, w: nat)
    requires IsRun(cfg, s, acts) && w < |s.writers| && s.writers[w].closed
    ensures var s' := After(cfg, s, acts);
            w < |s'.writers| && s'.writers[w].closed && Drains(s.writers[w].queue, s'.writers[w].queue)
    decreases |acts|
  {
    if acts != [] {
      ClosedStep(cfg, s, acts[0], w);
      var s1 := Step(cfg, s, acts[0]);
      hide Step;
      hide Enabled;
      ClosedOnlyDrains(cfg, s1, acts[1..], w);
    }
  }

  ghost predicate AllOpen(s: State) { forall w :: 0 <= w < |s.writers| ==> !s.writers[w].closed }

  lemma OpenStep(cfg: Config, s: State, a: Act)
    requires Enabled(cfg, s, a) && AllOpen(s) && !a.Stop?
    ensures AllOpen(Step(cfg, s, a)) && (a.EnqueueFail? ==> cfg.timed)
  {
    hide Image;
    hide Shard;
  }

  /** Without a timeout no writer refuses a task, in any run in which none is stopped. */
  lemma {:induction false} NoneRefused(cfg: Config, s: State, acts: seq<Act>)
    requires IsRun(cfg, s, acts) && AllOpen(s) && !cfg.timed && forall a <- acts :: !a.Stop?
    ensures forall a <- acts :: !a.EnqueueFail?
    decreases |acts|
  {
    if acts != [] {
      assert acts == [acts[0]] + acts[1..];
      OpenStep(cfg, s, acts[0]);
      var s1 := Step(cfg, s, acts[0]);
      hide Step;
      hide Enabled;
      hide AllOpen;
      NoneRefused(cfg, s1, acts[1..]);
    }
  }

  // ---------------------------------------------------------------- conservation

  function Times(q: seq<Task>, t: Task): (n: nat) { multiset(q)[t] }

  /** How often t occurs in a list of queues. */
  function Occurs(qs: seq<seq<Task>>, t: Task): (n: nat) {
    if qs == [] then 0 else Times(qs[0], t) + Occurs(qs[1..], t)
  }

  lemma {:induction false} OccursUpdate(qs: seq<seq<Task>>, i: nat, q: seq<Task>, t: Task)
    requires i < |qs|
    ensures Occurs(qs[i := q], t) + Times(qs[i], t) == Occurs(qs, t) + Times(q, t)
  {
    hide Times;
    if i == 0 {
      assert qs[0 := q][1..] == qs[1..];
    } else {
      OccursUpdate(qs[1..], i - 1, q, t);
      assert qs[i := q][1..] == qs[1..][i - 1 := q];
    }
  }

  lemma {:induction false} OccursSnoc(qs: seq<seq<Task>>, q: seq<Task>, t: Task)
    ensures Occurs(qs + [q], t) == Occurs(qs, t) + Times(q, t)
  {
    hide Times;
    if qs == [] {
      assert [q][1..] == [];
      assert qs + [q] == [q];
    } else {
      OccursSnoc(qs[1..], q, t);
      assert (qs + [q])[1..] == qs[1..] + [q];
    }
  }

  lemma TimesAppend(a: seq<Task>, b: seq<Task>, t: Task)
    ensures Times(a + b, t) == Times(a, t) + Times(b, t)
    ensures Times([], t) == 0
  {
  }

  lemma TimesHead(q: seq<Task>, t: Task)
    requires q != []
    ensures Times(q, t) == Times([q[0]], t) + Times(q[1..], t)
  {
    TimesAppend([q[0]], q[1..], t);
    assert q == [q[0]] + q[1..];
  }

  function HandQueues(hs: seq<Hand>): (qs: seq<seq<Task>>)
    ensures |qs| == |hs| && forall i :: 0 <= i < |hs| ==> qs[i] == hs[i].Tasks()
  {
    seq(|hs|, i requires 0 <= i < |hs| => hs[i].Tasks())
  }

  function WriterQueues(ws: seq<Writer>): (qs: seq<seq<Task>>)
    ensures |qs| == |ws| && forall i :: 0 <= i < |ws| ==> qs[i] == ws[i].Tasks()
  {
    seq(|ws|, i requires 0 <= i < |ws| => ws[i].Tasks())
  }

  function DoneTasks(ds: seq<Done>): (ts: seq<Task>)
    ensures |ts| == |ds| && forall i :: 0 <= i < |ds| ==> ts[i] == ds[i].task
  {
    seq(|ds|, i requires 0 <= i < |ds| => ds[i].task)
  }

  /** The places a task can be in: shard queues, workers' hands, writers (attached or not), completed. */
  function Places(s: State, t: Task): (n: nat) {
    Occurs(s.shards, t) + Occurs(HandQueues(s.hands), t) + Occurs(WriterQueues(s.writers), t)
    + Times(DoneTasks(s.done), t)
  }

  lemma HandUpdate(hs: seq<Hand>, i: nat, h: Hand, t: Task)
    requires i < |hs|
    ensures Occurs(HandQueues(hs[i := h]), t) + Times(hs[i].Tasks(), t) ==
            Occurs(HandQueues(hs), t) + Times(h.Tasks(), t)
  {
    OccursUpdate(HandQueues(hs), i, h.Tasks(), t);
    assert HandQueues(hs[i := h]) == HandQueues(hs)[i := h.Tasks()];
  }

  lemma WriterUpdate(ws: seq<Writer>, i: nat, w: Writer, t: Task)
    requires i < |ws|
    ensures Occurs(WriterQueues(ws[i := w]), t) + Times(ws[i].Tasks(), t) ==
            Occurs(WriterQueues(ws), t) + Times(w.Tasks(), t)
  {
    OccursUpdate(WriterQueues(ws), i, w.Tasks(), t);
    assert WriterQueues(ws[i := w]) == WriterQueues(ws)[i := w.Tasks()];
  }

  lemma DoneSnoc(ds: seq<Done>, d: Done, t: Task)
    ensures Times(DoneTasks(ds + [d]), t) == Times(DoneTasks(ds), t) + Times([d.task], t)
  {
    assert DoneTasks(ds + [d]) == DoneTasks(ds) + [d.task];
    TimesAppend(DoneTasks(ds), [d.task], t);
  }

  /** Task t is in as many places as it was accepted times. */
  ghost predicate Balanced(s: State, t: Task) {
    Times(s.accepted, t) == Places(s, t)
  }

  lemma ShardSteps(cfg: Config, s: State, a: Act, t: Task)
    requires Enabled(cfg, s, a) && Balanced(s, t) && (a.Dispatch? || a.Take?)
    ensures Balanced(Step(cfg, s, a), t)
  {
    hide Image;
    hide Times;
    hide Occurs;
    match a
    case Dispatch(conn, frame, hasCodec, hasCallback) =>
      var x := Task(|s.accepted|, conn, frame, hasCodec, hasCallback);
      var i := Shard(cfg, conn);
      OccursUpdate(s.shards, i, s.shards[i] + [x], t);
      TimesAppend(s.shards[i], [x], t);
      TimesAppend(s.accepted, [x], t);
    case Take(i) =>
      var q := s.shards[i];
      TimesHead(q, t);
      TimesAppend([], [], t);
      OccursUpdate(s.shards, i, q[1..], t);
      HandUpdate(s.hands, i, Holding(q[0]), t);
  }

  lemma ResolveStep(cfg: Config, s: State, a: Act, t: Task)
    requires Enabled(cfg, s, a) && Balanced(s, t) && a.Resolve?
    ensures Balanced(Step(cfg, s, a), t)
  {
    hide Image;
    hide Times;
    hide Occurs;
    HandUpdate(s.hands, a.i, Step(cfg, s, a).hands[a.i], t);
    var blank := Writer(s.hands[a.i].task.conn, [], None, false);
    OccursSnoc(WriterQueues(s.writers), [], t);
    TimesAppend([], [], t);
    assert WriterQueues(s.writers + [blank]) == WriterQueues(s.writers) + [[]];
  }

  lemma EnqueueStep(cfg: Config, s: State, a: Act, t: Task)
    requires Enabled(cfg, s, a) && Balanced(s, t) && a.Enqueue?
    ensures Balanced(Step(cfg, s, a), t)
  {
    hide Image;
    hide Times;
    hide Occurs;
    var Resolved(x, w) := s.hands[a.i];
    var wr := s.writers[w];
    var wr' := wr.(queue := wr.queue + [x]);
    HandUpdate(s.hands, a.i, Idle, t);
    WriterUpdate(s.writers, w, wr', t);
    assert wr'.Tasks() == wr.Tasks() + [x];
    TimesAppend(wr.Tasks(), [x], t);
  }

  lemma EnqueueFailStep(cfg: Config, s: State, a: Act, t: Task)
    requires Enabled(cfg, s, a) && Balanced(s, t) && a.EnqueueFail?
    ensures Balanced(Step(cfg, s, a), t)
  {
    hide Image;
    hide Times;
    hide Occurs;
    HandUpdate(s.hands, a.i, Idle, t);
    TimesAppend([], [], t);
    DoneSnoc(s.done, Done(s.hands[a.i].task, false), t);
  }

  lemma WriterSteps(cfg: Config, s: State, a: Act, t: Task)
    requires Enabled(cfg, s, a) && Balanced(s, t)
    requires a.Begin? || a.WriteSome? || a.Finish? || a.Fail? || a.Stop?
    ensures Balanced(Step(cfg, s, a), t)
  {
    hide Image;
    hide Times;
    hide Occurs;
    var s' := Step(cfg, s, a);
    var wr, wr' := s.writers[a.w], s'.writers[a.w];
    WriterUpdate(s.writers, a.w, wr', t);
    if a.Finish? || a.Fail? {
      var x := wr.cur.value.task;
      DoneSnoc(s.done, Done(x, a.Finish?), t);
      assert wr.Tasks() == [x] + wr.queue && wr'.Tasks() == [] + wr.queue == wr.queue;
      TimesAppend([x], wr.queue, t);
    } else {
      assert wr'.Tasks() == wr.Tasks();
    }
  }

  lemma StepBalances(cfg: Config, s: State, a: Act, t: Task)
    requires Enabled(cfg, s, a) && Balanced(s, t)
    ensures Balanced(Step(cfg, s, a), t)
  {
    hide Image;
    if a.Dispatch? || a.Take? { ShardSteps(cfg, s, a, t); }
    else if a.Resolve? { ResolveStep(cfg, s, a, t); }
    else if a.Enqueue? { EnqueueStep(cfg, s, a, t); }
    else if a.EnqueueFail? { EnqueueFailStep(cfg, s, a, t); }
    else if !a.Detach? { WriterSteps(cfg, s, a, t); }
  }

  lemma {:induction false} RunBalances(cfg: Config, s: State, acts: seq<Act>, t: Task)
    requires IsRun(cfg, s, acts) && Balanced(s, t)
    ensures Balanced(After(cfg, s, acts), t)
    decreases |acts|
  {
    hide Balanced;
    hide Step;
    if acts != [] {
      StepBalances(cfg, s, acts[0], t);
      RunBalances(cfg, Step(cfg, s, acts[0]), acts[1..], t);
    }
  }

  lemma {:induction false} OccursNone(qs: seq<seq<Task>>, t: Task)
    requires forall i :: 0 <= i < |qs| ==> qs[i] == []
    ensures Occurs(qs, t) == 0
  {
    if qs != [] {
      OccursNone(qs[1..], t);
    }
  }

  lemma {:induction false} TicketsAreIndices(cfg: Config, s: State, acts: seq<Act>)
    requires IsRun(cfg, s, acts) && forall i :: 0 <= i < |s.accepted| ==> s.accepted[i].ticket == i
    ensures forall i :: 0 <= i < |After(cfg, s, acts).accepted| ==> After(cfg, s, acts).accepted[i].ticket == i
    decreases |acts|
  {
    hide Image;
    if acts != [] {
      TicketsAreIndices(cfg, Step(cfg, s, acts[0]), acts[1..]);
    }
  }

  lemma {:induction false} DistinctOccurOnce(ts: seq<Task>, t: Task, from: nat)
    requires forall i :: 0 <= i < |ts| ==> ts[i].ticket == from + i
    ensures Times(ts, t) == if t in ts then 1 else 0
  {
    if ts != [] {
      DistinctOccurOnce(ts[1..], t, from + 1);
      assert ts == [ts[0]] + ts[1..];
    }
  }

  /** Nothing is queued, held or being written anywhere. */
  predicate Drained(s: State) {
    && (forall i :: 0 <= i < |s.shards| ==> s.shards[i] == [])
    && (forall i :: 0 <= i < |s.hands| ==> s.hands[i].Idle?)
    && (forall w :: 0 <= w < |s.writers| ==> s.writers[w].Tasks() == [])
  }

  /** How often the callback of t has been called. */
  function Fired(s: State, t: Task): (n: nat) {
    if t.hasCallback then Times(DoneTasks(s.done), t) else 0
  }

  /**
   Task conservation, under every interleaving including concurrent CloseConn: a task accepted by
   Dispatch is in exactly one place at any moment, its callback has fired at most once, and once
   everything is drained it has fired exactly once; a task never accepted is nowhere.
   */
  lemma ExactlyOnce(cfg: Config, acts: seq<Act>, t: Task)
    requires IsRun(cfg, Start(cfg), acts)
    ensures var s := After(cfg, Start(cfg), acts);
            && Places(s, t) == (if t in s.accepted then 1 else 0)
            && Fired(s, t) <= 1
            && (Drained(s) ==> Fired(s, t) == if t in s.accepted && t.hasCallback then 1 else 0)
  {
    var s0 := Start(cfg);
    OccursNone(s0.shards, t);
    OccursNone(HandQueues(s0.hands), t);
    RunBalances(cfg, s0, acts, t);
    TicketsAreIndices(cfg, s0, acts);
    var s := After(cfg, s0, acts);
    hide After;
    hide IsRun;
    DistinctOccurOnce(s.accepted, t, 0);
    if Drained(s) {
      OccursNone(s.shards, t);
      OccursNone(HandQueues(s.hands), t);
      OccursNone(WriterQueues(s.writers), t);
    }
  }
}
