/**
 The send dispatcher and its connection writers as objects. Each method is one atomic action of
 the code, and is proved to be the corresponding step of the scheduler's state machine, so what
 holds over every run of that machine holds of these objects.
 */
module SendDispatch {
  import opened Bytes
  import Codec
  import FrameIO
  import Pipes
  import SS = SendScheduler

  datatype SendError = NilConn | WriterClosed | EnqueueTimeout

  class ConnWriter {
    const conn: string
    var queue: seq<SS.Task>
    var cur: Option<SS.Writing>
    var closed: bool

    function View(): (w: SS.Writer)
      reads this
    {
      SS.Writer(conn, queue, cur, closed)
    }

    constructor (conn: string)
      ensures View() == SS.Writer(conn, [], None, false)
    {
      this.conn := conn;
      queue, cur, closed := [], None, false;
    }

    /** enqueue; `room` says whether the queue took the task in time. */
    method Enqueue(task: SS.Task, room: bool) returns (err: Option<SendError>)
      modifies this`queue
      ensures err == if closed then Some(WriterClosed) else if room then None else Some(EnqueueTimeout)
      ensures queue == if err.None? then old(queue) + [task] else old(queue)
    {
      if closed { return Some(WriterClosed); }
      if !room { return Some(EnqueueTimeout); }
      queue := queue + [task];
      err := None;
    }

    /** stop: idempotent; what is queued stays to be drained. */
    method Stop()
      modifies this`closed
      ensures closed
    {
      closed := true;
    }

    /** The goroutine's loop receives its next task. */
    method Next()
      requires queue != [] && cur.None?
      modifies this`queue, this`cur
      ensures queue == old(queue)[1..] && cur == Some(SS.Writing(old(queue)[0], 0))
    {
      cur := Some(SS.Writing(queue[0], 0));
      queue := queue[1..];
    }

    /** n more bytes of the current frame are on the pipe. */
    method Advance(n: nat)
      requires cur.Some?
      modifies this`cur
      ensures cur == Some(SS.Writing(old(cur).value.task, old(cur).value.off + n))
    {
      cur := Some(SS.Writing(cur.value.task, cur.value.off + n));
    }

    /** The write has returned and the callback has been called. */
    method Complete()
      modifies this`cur
      ensures cur == None
    {
      cur := None;
    }
  }

  /** A shard worker's local variables. */
  datatype Local = Free | Got(task: SS.Task) | Found(task: SS.Task, writer: ConnWriter)

  /** The record of writers, by object and by order of creation. */
  ghost predicate Linked(made: seq<ConnWriter>, writers: map<string, ConnWriter>, attached: map<string, nat>) {
    && (forall i, j :: 0 <= i < j < |made| ==> made[i] != made[j])
    && writers.Keys == attached.Keys
    && (forall c <- writers :: attached[c] < |made| && made[attached[c]] == writers[c] && writers[c].conn == c)
  }

  /** A worker's locals say what the model says, writers being named by order of creation. */
  ghost predicate Agrees(made: seq<ConnWriter>, l: Local, h: SS.Hand) {
    match l
    case Free => h.Idle?
    case Got(t) => h == SS.Holding(t)
    case Found(t, w) => h.Resolved? && h.task == t && h.w < |made| && made[h.w] == w
  }

  ghost predicate AllAgree(made: seq<ConnWriter>, ls: seq<Local>, hs: seq<SS.Hand>) {
    |ls| == |hs| && forall i :: 0 <= i < |ls| ==> Agrees(made, ls[i], hs[i])
  }

  lemma AgreeWithNew(made: seq<ConnWriter>, ls: seq<Local>, hs: seq<SS.Hand>, w: ConnWriter)
    requires AllAgree(made, ls, hs)
    ensures AllAgree(made + [w], ls, hs)
  {
    forall i | 0 <= i < |ls| ensures Agrees(made + [w], ls[i], hs[i]) {
      assert Agrees(made, ls[i], hs[i]);
    }
  }

  lemma LinkedWithNew(made: seq<ConnWriter>, writers: map<string, ConnWriter>, attached: map<string, nat>,
                      w: ConnWriter)
    requires Linked(made, writers, attached) && w !in made
    ensures Linked(made + [w], writers[w.conn := w], attached[w.conn := |made|])
  {
  }

  /** A write that put out n bytes, as steps. */
  function WriteActs(k: nat, n: nat, ok: bool): (acts: seq<SS.Act>) {
    (if n > 0 then [SS.WriteSome(k, n)] else []) + [if ok then SS.Finish(k) else SS.Fail(k)]
  }

  lemma WriteRun(cfg: SS.Config, s: SS.State, k: nat, n: nat, ok: bool)
    requires n > 0 ==> SS.Enabled(cfg, s, SS.WriteSome(k, n))
    requires var s1 := if n > 0 then SS.Step(cfg, s, SS.WriteSome(k, n)) else s;
             SS.Enabled(cfg, s1, if ok then SS.Finish(k) else SS.Fail(k))
    ensures SS.IsRun(cfg, s, WriteActs(k, n, ok))
    ensures var s1 := if n > 0 then SS.Step(cfg, s, SS.WriteSome(k, n)) else s;
            SS.After(cfg, s, WriteActs(k, n, ok)) == SS.Step(cfg, s1, if ok then SS.Finish(k) else SS.Fail(k))
  {
    var s1 := if n > 0 then SS.Step(cfg, s, SS.WriteSome(k, n)) else s;
    var a := if ok then SS.Finish(k) else SS.Fail(k);
    var s2 := SS.Step(cfg, s1, a);
    hide SS.Step;
    hide SS.Enabled;
    assert [a][1..] == [] && SS.IsRun(cfg, s2, []) && SS.After(cfg, s2, []) == s2;
    assert SS.IsRun(cfg, s1, [a]) && SS.After(cfg, s1, [a]) == s2;
    if n > 0 {
      var acts := WriteActs(k, n, ok);
      assert acts[0] == SS.WriteSome(k, n) && acts[1..] == [a];
    } else {
      assert [] + [a] == [a];
    }
  }

  lemma WrittenViews(cfg: SS.Config, s: SS.State, k: nat, n: nat, ok: bool)
    requires k < |s.writers| && (n > 0 ==> SS.Enabled(cfg, s, SS.WriteSome(k, n)))
    requires var s1 := if n > 0 then SS.Step(cfg, s, SS.WriteSome(k, n)) else s;
             SS.Enabled(cfg, s1, if ok then SS.Finish(k) else SS.Fail(k))
    ensures var s1 := if n > 0 then SS.Step(cfg, s, SS.WriteSome(k, n)) else s;
            var s2 := SS.Step(cfg, s1, if ok then SS.Finish(k) else SS.Fail(k));
            && s2.shards == s.shards && s2.hands == s.hands && s2.attached == s.attached && s2.accepted == s.accepted
            && s2.writers == s.writers[k := s.writers[k].(cur := None)]
  {
    hide SS.Image;
  }

  /** write: nothing without a codec or a pipe, else WriteFrame; what went out is a prefix of the frame's image. */
  method PutOut(task: SS.Task, pipe: Pipes.Writer) returns (ok: bool, ghost n: nat)
    modifies if pipe.Nil? then {} else {pipe.Half()}
    ensures var image := SS.Image(task);
            && n <= |image| && (n > 0 ==> task.hasCodec)
            && (!pipe.Nil? ==> pipe.Sink() == old(pipe.Sink()) + image[..n])
            && (ok <==> task.hasCodec && n == |image|) && (ok ==> !pipe.Nil?)
  {
    n := 0;
    ok := false;
    ImageIsSome(task);
    if task.hasCodec && !pipe.Nil? {
      ghost var before := pipe.Sink();
      var r := FrameIO.WriteFrame(pipe, FrameIO.TcpCodec, Some(task.frame.hdr), task.frame.payload);
      n := |pipe.Sink()| - |before|;
      ok := r.err == Pipes.NoErr;
    }
  }

  lemma ImageIsSome(t: SS.Task)
    ensures |SS.Image(t)| > 0
  {
  }

  class SendDispatcher {
    const cfg: SS.Config
    var shards: seq<seq<SS.Task>>
    var locals: seq<Local>
    var writers: map<string, ConnWriter>
    /** Numbers the accepted tasks, which tells equal requests apart. */
    var issued: nat
    ghost var made: seq<ConnWriter>
    ghost var model: SS.State

    ghost predicate WritersAgree()
      reads this, made
    {
      && Linked(made, writers, model.attached) && |model.writers| == |made|
      && forall i :: 0 <= i < |made| ==> made[i].View() == model.writers[i]
    }

    ghost predicate Valid()
      reads this, made
    {
      && SS.Usable(cfg) && |shards| == |locals| == cfg.shards
      && issued == |model.accepted| && model.shards == shards && AllAgree(made, locals, model.hands)
      && WritersAgree()
    }

    constructor (cfg: SS.Config)
      requires SS.Usable(cfg)
      ensures Valid() && this.cfg == cfg && model == SS.Start(cfg) && made == []
    {
      this.cfg := cfg;
      shards, locals, writers := seq(cfg.shards, _ => []), seq(cfg.shards, _ => Free), map[];
      issued := 0;
      made, model := [], SS.Start(cfg);
    }

    /** Dispatch; `room` says whether the shard took the task in time. */
    method Dispatch(conn: Option<string>, frame: Codec.Frame, hasCodec: bool, hasCallback: bool, room: bool)
      returns (err: Option<SendError>)
      requires Valid()
      modifies this
      ensures Valid() && made == old(made)
      ensures err == if conn.None? then Some(NilConn) else if room then None else Some(EnqueueTimeout)
      ensures err.Some? ==> model == old(model)
      ensures err.None? ==>
                var a := SS.Dispatch(conn.value, frame, hasCodec, hasCallback);
                SS.Enabled(cfg, old(model), a) && model == SS.Step(cfg, old(model), a)
      ensures err.None? ==>
                var i := SS.Shard(cfg, conn.value);
                && shards == old(shards)[i := shards[i]] && |shards[i]| == |old(shards)[i]| + 1
                && old(shards)[i] <= shards[i]
                && var t := shards[i][|old(shards)[i]|];
                   && t.conn == conn.value && t.frame == frame
                   && t.hasCodec == hasCodec && t.hasCallback == hasCallback
    {
      if conn.None? { return Some(NilConn); }
      var i := SS.Shard(cfg, conn.value);
      if !room { return Some(EnqueueTimeout); }
      var task := SS.Task(issued, conn.value, frame, hasCodec, hasCallback);
      shards := shards[i := shards[i] + [task]];
      issued := issued + 1;
      model := SS.Step(cfg, model, SS.Dispatch(conn.value, frame, hasCodec, hasCallback));
      err := None;
    }

    /** A shard worker receives from its channel. */
    method Take(i: nat)
      requires Valid() && i < |shards| && locals[i].Free? && shards[i] != []
      modifies this
      ensures Valid() && made == old(made)
      ensures SS.Enabled(cfg, old(model), SS.Take(i)) && model == SS.Step(cfg, old(model), SS.Take(i))
    {
      locals := locals[i := Got(shards[i][0])];
      shards := shards[i := shards[i][1..]];
      model := SS.Step(cfg, model, SS.Take(i));
    }

    /** getOrCreateWriter: the writer on record, or a new one put on record. */
    method GetOrCreateWriter(i: nat)
      requires Valid() && i < |locals| && locals[i].Got?
      modifies this
      ensures Valid() && old(made) <= made && forall w <- made :: w in old(made) || fresh(w)
      ensures SS.Enabled(cfg, old(model), SS.Resolve(i)) && model == SS.Step(cfg, old(model), SS.Resolve(i))
      ensures locals[i].Found? && locals[i].task == old(locals[i].task)
      ensures var id := locals[i].task.conn; id in writers && writers[id] == locals[i].writer
    {
      if locals[i].task.conn !in writers { AddWriter(locals[i].task.conn); }
      UseWriter(i);
    }

    method UseWriter(i: nat)
      requires Valid() && i < |locals| && locals[i].Got? && locals[i].task.conn in writers
      modifies this`locals, this`model
      ensures Valid() && model == SS.DoResolve(old(model), i)
      ensures locals[i] == Found(old(locals[i].task), writers[old(locals[i].task.conn)])
    {
      var task := locals[i].task;
      locals := locals[i := Found(task, writers[task.conn])];
      model := SS.DoResolve(model, i);
      assert WritersAgree();
    }

    /** Put a new writer on record. */
    method AddWriter(id: string)
      requires Valid() && id !in writers
      modifies this`made, this`writers, this`model
      ensures Valid() && id in writers && fresh(writers[id]) && made == old(made) + [writers[id]]
      ensures model == old(model).(writers := old(model).writers + [SS.Writer(id, [], None, false)],
                                   attached := old(model).attached[id := |old(made)|])
    {
      var w := new ConnWriter(id);
      LinkedWithNew(made, writers, model.attached, w);
      AgreeWithNew(made, locals, model.hands, w);
      hide Linked;
      hide AllAgree;
      hide SS.Usable;
      model := model.(writers := model.writers + [w.View()], attached := model.attached[id := |made|]);
      made := made + [w];
      writers := writers[id := w];
    }

    /**
     The worker hands its task to the writer it found; a refused task is completed with the error.
     Without a timeout the call waits until there is room.
     */
    method EnqueueTask(i: nat, room: bool) returns (err: Option<SendError>)
      requires Valid() && i < |locals| && locals[i].Found? && (room || cfg.timed)
      modifies this, locals[i].writer
      ensures Valid() && made == old(made)
      ensures err.None? <==> !old(locals[i].writer.closed) && room
      ensures var a := if err.None? then SS.Enqueue(i) else SS.EnqueueFail(i);
              SS.Enabled(cfg, old(model), a) && model == SS.Step(cfg, old(model), a)
    {
      var Found(task, w) := locals[i];
      ghost var k := model.hands[i].w;
      err := w.Enqueue(task, room);
      locals := locals[i := Free];
      model := SS.Step(cfg, model, if err.None? then SS.Enqueue(i) else SS.EnqueueFail(i));
      assert forall j :: 0 <= j < |made| && j != k ==> made[j] != w;
    }

    /** The goroutine of writer number k receives its next task. */
    method BeginTask(w: ConnWriter, ghost k: nat)
      requires Valid() && k < |made| && made[k] == w && w.cur.None? && w.queue != []
      modifies this, w
      ensures Valid() && made == old(made)
      ensures SS.Enabled(cfg, old(model), SS.Begin(k)) && model == SS.Step(cfg, old(model), SS.Begin(k))
    {
      w.Next();
      model := SS.Step(cfg, model, SS.Begin(k));
    }

    /** Bytes of the current frame of writer number k reach the pipe. */
    method WriteSome(w: ConnWriter, n: nat, ghost k: nat)
      requires Valid() && k < |made| && made[k] == w && w.cur.Some? && w.cur.value.task.hasCodec
      requires w.cur.value.off + n <= |SS.Image(w.cur.value.task)|
      modifies this, w
      ensures Valid() && made == old(made)
      ensures SS.Enabled(cfg, old(model), SS.WriteSome(k, n)) && model == SS.Step(cfg, old(model), SS.WriteSome(k, n))
    {
      w.Advance(n);
      model := SS.Step(cfg, model, SS.WriteSome(k, n));
    }

    /** The write of writer number k returns: without error exactly when the whole frame is out. */
    method EndTask(w: ConnWriter, ok: bool, ghost k: nat)
      requires Valid() && k < |made| && made[k] == w && w.cur.Some?
      requires ok <==> w.cur.value.task.hasCodec && w.cur.value.off == |SS.Image(w.cur.value.task)|
      requires w.cur.value.off <= |SS.Image(w.cur.value.task)|
      modifies this, w
      ensures Valid() && made == old(made)
      ensures var a := if ok then SS.Finish(k) else SS.Fail(k);
              SS.Enabled(cfg, old(model), a) && model == SS.Step(cfg, old(model), a)
    {
      w.Complete();
      model := SS.Step(cfg, model, if ok then SS.Finish(k) else SS.Fail(k));
    }

    /**
     The writer's write: the current frame goes to the pipe through WriteFrame. It is some bytes of
     the frame reaching the pipe, followed by the end of the task, without error exactly when there
     is a codec and all of the frame went out.
     */
    method WriteTask(w: ConnWriter, pipe: Pipes.Writer, ghost k: nat) returns (ok: bool, ghost n: nat)
      requires Valid() && k < |made| && made[k] == w && w.cur.Some? && w.cur.value.off == 0
      modifies this, w, if pipe.Nil? then {} else {pipe.Half()}
      ensures Valid() && made == old(made)
      ensures var image := SS.Image(old(w.cur).value.task);
              && n <= |image| && (!pipe.Nil? ==> pipe.Sink() == old(pipe.Sink()) + image[..n])
              && (ok <==> old(w.cur).value.task.hasCodec && n == |image|) && (ok ==> !pipe.Nil?)
      ensures SS.IsRun(cfg, old(model), WriteActs(k, n, ok)) && model == SS.After(cfg, old(model), WriteActs(k, n, ok))
    {
      hide SS.Image;
      ok, n := PutOut(w.cur.value.task, pipe);
      Conclude(w, ok, k, n);
    }

    /** A write that put out n bytes of the current frame of writer number k is over. */
    method Conclude(w: ConnWriter, ok: bool, ghost k: nat, ghost n: nat)
      requires Valid() && k < |made| && made[k] == w && w.cur.Some? && w.cur.value.off == 0
      requires n <= |SS.Image(w.cur.value.task)| && (n > 0 ==> w.cur.value.task.hasCodec)
      requires ok <==> w.cur.value.task.hasCodec && n == |SS.Image(w.cur.value.task)|
      modifies this`model, w`cur
      ensures Valid()
      ensures SS.IsRun(cfg, old(model), WriteActs(k, n, ok)) && model == SS.After(cfg, old(model), WriteActs(k, n, ok))
    {
      ImageIsSome(w.cur.value.task);
      hide SS.Image;
      hide SS.IsRun;
      hide SS.After;
      assert model.writers[k] == w.View();
      ghost var s0 := model;
      w.Complete();
      ghost var s1 := if n > 0 then SS.Step(cfg, s0, SS.WriteSome(k, n)) else s0;
      WriteRun(cfg, s0, k, n, ok);
      model := SS.Step(cfg, s1, if ok then SS.Finish(k) else SS.Fail(k));
      WrittenViews(cfg, s0, k, n, ok);
      hide SS.Step;
      hide SS.Enabled;
    }

    /** CloseConn, first half: take the writer off the record. */
    method Detach(id: string) returns (w: Option<ConnWriter>)
      requires Valid()
      modifies this
      ensures Valid() && made == old(made) && id !in writers
      ensures w == if id in old(writers) then Some(old(writers)[id]) else None
      ensures model == SS.Step(cfg, old(model), SS.Detach(id))
    {
      w := if id in writers then Some(writers[id]) else None;
      writers := writers - {id};
      model := SS.Step(cfg, model, SS.Detach(id));
    }

    /** CloseConn, second half: close the channel of writer number k, which is off the record. */
    method StopWriter(w: ConnWriter, ghost k: nat)
      requires Valid() && k < |made| && made[k] == w && w !in writers.Values
      modifies this, w
      ensures Valid() && made == old(made) && w.closed
      ensures SS.Enabled(cfg, old(model), SS.Stop(k)) && model == SS.Step(cfg, old(model), SS.Stop(k))
    {
      w.Stop();
      model := SS.Step(cfg, model, SS.Stop(k));
    }

    /** CloseConn, uninterrupted: the writer of the connection, if any, is off the record and closed. */
    method CloseConn(id: string)
      requires Valid()
      modifies this, writers.Values
      ensures Valid() && made == old(made) && id !in writers
      ensures id in old(writers) ==> old(writers)[id].closed
      ensures var detached := SS.Step(cfg, old(model), SS.Detach(id));
              model == if id in old(writers) then SS.DoStop(detached, old(model).attached[id]) else detached
    {
      ghost var attached := model.attached;
      var w := Detach(id);
      if w.Some? {
        forall c | c in writers ensures writers[c] != w.value {
          assert made[attached[c]] == writers[c] && made[attached[id]] == w.value;
        }
        StopWriter(w.value, attached[id]);
      }
    }
  }
}
