/**
 The connection manager under concurrency. Each operation is its part under the lock plus a
 tail that runs after the lock is released (hooks, closing, the eviction of a predecessor);
 tails of different callers interleave freely with each other and with new operations.
 Both hook sets are installed from the start.
 */
module ManagerRuns {
  import opened Bytes
  import opened Links
  import opened ConnManager
  import opened Sums
  import Header
  import Routing

  /** A caller between releasing the lock and returning. `done` hooks have fired already. */
  datatype Tail = AddTail(c: Conn, done: nat) | RemoveTail(c: Conn, done: nat) | EvictTail(prior: Conn)

  /** The table, every hook call and Close in order, the open tails, and which adds and removes took effect. */
  datatype State = State(t: Table, log: seq<Event>, tails: seq<Tail>, adds: seq<Conn>, removes: seq<Conn>)

  const START := State(EMPTY_TABLE, [], [], [], [])

  /** A step: a new call up to the end of its locked part, or the next action of an open tail. */
  datatype Op =
    | Add(c: Conn, metas: Metas)
    | Remove(id: string)
    | UpdateNode(node: u32, conn: Option<Conn>, metas: Metas)
    | UpdateDevice(dev: string, conn: Option<Conn>)
    | CloseAll(order: seq<Conn>)
    | Advance(i: nat)

  /** Removing under the lock, whoever asked for it. */
  function Removing(s: State, id: string): (s': State) {
    if id in s.t.conns then
      s.(t := RemoveLocked(s.t, id), tails := s.tails + [RemoveTail(s.t.conns[id], 0)],
         removes := s.removes + [s.t.conns[id]])
    else s
  }

  function FreshRemoveTails(order: seq<Conn>): (ts: seq<Tail>)
    ensures |ts| == |order| && forall i :: 0 <= i < |order| ==> ts[i] == RemoveTail(order[i], 0)
  {
    seq(|order|, i requires 0 <= i < |order| => RemoveTail(order[i], 0))
  }

  ghost predicate Enabled(s: State, op: Op) {
    match op
    case CloseAll(order) => Snapshot(order, s.t)
    case Advance(i) => i < |s.tails|
    case _ => true
  }

  /** The next action of tail i: one hook call, the close, or the removal an eviction asks for. */
  function Advanced(s: State, i: nat): (s': State)
    requires i < |s.tails|
  {
    var rest := s.tails[..i] + s.tails[i + 1..];
    match s.tails[i]
    case AddTail(c, done) =>
      if done == 0 then s.(log := s.log + [OnAdd(c)], tails := rest + [AddTail(c, 1)])
      else s.(log := s.log + [LinkOnAdd(c)], tails := rest)
    case RemoveTail(c, done) =>
      if done == 0 then s.(log := s.log + [OnRemove(c)], tails := rest + [RemoveTail(c, 1)])
      else if done == 1 then s.(log := s.log + [LinkOnRemove(c)], tails := rest + [RemoveTail(c, 2)])
      else s.(log := s.log + [Closed(c)], tails := rest)
    case EvictTail(prior) => Removing(s.(tails := rest), prior.id)
  }

  function Step(s: State, op: Op): (s': State)
    requires op.Advance? ==> op.i < |s.tails|
  {
    match op
    case Add(c, metas) =>
      if c.id in s.t.conns then s
      else s.(t := AddLocked(s.t, c, metas), tails := s.tails + [AddTail(c, 0)], adds := s.adds + [c])
    case Remove(id) => Removing(s, id)
    case UpdateNode(node, conn, metas) =>
      var v := Victim(s.t, metas, node, conn);
      s.(t := UpdateNodeLocked(s.t, node, conn),
         tails := if v != "" then s.tails + [EvictTail(s.t.nodes[node])] else s.tails)
    case UpdateDevice(dev, conn) => s.(t := UpdateDeviceLocked(s.t, dev, conn))
    case CloseAll(order) =>
      s.(t := EMPTY_TABLE, tails := s.tails + FreshRemoveTails(order), removes := s.removes + order)
    case Advance(i) => Advanced(s, i)
  }

  /** Callers update the indexes only with connections managed at that moment. */
  predicate Guarded(s: State, op: Op) {
    match op
    case UpdateNode(node, conn, _) => conn.Some? ==> Managed(s.t, conn.value)
    case UpdateDevice(dev, conn) => conn.Some? ==> Managed(s.t, conn.value)
    case _ => true
  }

  ghost predicate IsRun(s: State, ops: seq<Op>)
    decreases |ops|
  {
    ops != [] ==> Enabled(s, ops[0]) && IsRun(Step(s, ops[0]), ops[1..])
  }

  ghost predicate GuardedRun(s: State, ops: seq<Op>)
    requires IsRun(s, ops)
    decreases |ops|
  {
    ops != [] ==> Guarded(s, ops[0]) && GuardedRun(Step(s, ops[0]), ops[1..])
  }

  ghost function After(s: State, ops: seq<Op>): (s': State)
    requires IsRun(s, ops)
    decreases |ops|
  {
    if ops == [] then s else After(Step(s, ops[0]), ops[1..])
  }

  // ---------------------------------------------------------------- the index invariant

  lemma RemovingKeepsConsistent(s: State, id: string)
    requires Consistent(s.t)
    ensures Consistent(Removing(s, id).t)
  {
  }

  lemma AddKeepsConsistent(t: Table, c: Conn, metas: Metas)
    requires Consistent(t) && c.id !in t.conns
    ensures Consistent(AddLocked(t, c, metas))
  {
    hide ExtractNodeID;
    hide DeviceOf;
  }

  lemma UpdateKeepsConsistent(t: Table, node: u32, dev: string, conn: Option<Conn>)
    requires Consistent(t) && (conn.Some? ==> Managed(t, conn.value))
    ensures Consistent(UpdateNodeLocked(t, node, conn)) && Consistent(UpdateDeviceLocked(t, dev, conn))
  {
  }

  lemma StepKeepsConsistent(s: State, op: Op)
    requires Consistent(s.t) && Enabled(s, op) && Guarded(s, op)
    ensures Consistent(Step(s, op).t)
  {
    hide Removing;
    hide Victim;
    hide AddLocked;
    hide UpdateNodeLocked;
    hide UpdateDeviceLocked;
    match op
    case Add(c, metas) =>
      if c.id !in s.t.conns { AddKeepsConsistent(s.t, c, metas); }
    case Remove(id) => RemovingKeepsConsistent(s, id);
    case UpdateNode(node, conn, _) => UpdateKeepsConsistent(s.t, node, "", conn);
    case UpdateDevice(dev, conn) => UpdateKeepsConsistent(s.t, 0, dev, conn);
    case CloseAll(_) =>
    case Advance(i) =>
      if s.tails[i].EvictTail? {
        RemovingKeepsConsistent(s.(tails := s.tails[..i] + s.tails[i + 1..]), s.tails[i].prior.id);
      }
  }

  /**
   In every guarded run, under every interleaving: index keys are real and index values are the
   connections the primary map holds under their own IDs.
   */
  lemma {:induction false} RunKeepsConsistent(s: State, ops: seq<Op>)
    requires Consistent(s.t) && IsRun(s, ops) && GuardedRun(s, ops)
    ensures Consistent(After(s, ops).t)
    decreases |ops|
  {
    if ops != [] {
      StepKeepsConsistent(s, ops[0]);
      RunKeepsConsistent(Step(s, ops[0]), ops[1..]);
    }
  }

  /** The guard is exactly what an index update needs. */
  lemma GuardIsExact(s: State, node: u32, dev: string, c: Conn, metas: Metas)
    requires Consistent(s.t)
    ensures Consistent(Step(s, UpdateNode(node, Some(c), metas)).t) <==> node == 0 || Managed(s.t, c)
    ensures Consistent(Step(s, UpdateDevice(dev, Some(c))).t) <==> dev == "" || Managed(s.t, c)
  {
    if node != 0 {
      assert Step(s, UpdateNode(node, Some(c), metas)).t.nodes[node] == c;
    }
    if dev != "" {
      assert Step(s, UpdateDevice(dev, Some(c))).t.devs[dev] == c;
    }
  }

  // ---------------------------------------------------------------- hooks and closing, counted

  predicate Pending(tail: Tail, e: Event) {
    match (tail, e)
    case (AddTail(c, done), OnAdd(d)) => c == d && done == 0
    case (AddTail(c, done), LinkOnAdd(d)) => c == d
    case (RemoveTail(c, done), OnRemove(d)) => c == d && done == 0
    case (RemoveTail(c, done), LinkOnRemove(d)) => c == d && done <= 1
    case (RemoveTail(c, done), Closed(d)) => c == d
    case _ => false
  }

  /** Open tails that still have to produce event e. */
  function Owing(e: Event): (f: Tail -> nat) {
    (tail: Tail) => if Pending(tail, e) then 1 else 0
  }

  predicate TailOk(tail: Tail) {
    match tail
    case AddTail(_, done) => done <= 1
    case RemoveTail(_, done) => done <= 2
    case EvictTail(_) => true
  }

  /** The add or remove an event belongs to. */
  function Cause(s: State, e: Event): (n: nat) {
    if e.OnAdd? || e.LinkOnAdd? then multiset(s.adds)[e.c] else multiset(s.removes)[e.c]
  }

  /** Event e: fired so far plus still owed equals the adds or removes that call for it. */
  ghost predicate EventBalance(s: State, e: Event) {
    multiset(s.log)[e] + Sum(s.tails, Owing(e)) == Cause(s, e)
  }

  /** A connection is managed exactly when it was added once more than it was removed. */
  ghost predicate MembershipBalance(s: State, c: Conn) {
    multiset(s.adds)[c] == multiset(s.removes)[c] + if Managed(s.t, c) then 1 else 0
  }

  lemma SumOneTail(tail: Tail, e: Event)
    ensures Sum([tail], Owing(e)) == (if Pending(tail, e) then 1 else 0) && Sum([], Owing(e)) == 0
  {
    assert [tail][1..] == [];
  }

  lemma RemovingBalances(s: State, id: string, e: Event)
    requires EventBalance(s, e)
    ensures EventBalance(Removing(s, id), e)
  {
    if id in s.t.conns {
      var tail := RemoveTail(s.t.conns[id], 0);
      SumAppend(s.tails, [tail], Owing(e));
      SumOneTail(tail, e);
    }
  }

  /** Firing one event and leaving `next` (or nothing) open in place of tail i. */
  lemma FireBalances(s: State, i: nat, fire: Event, next: seq<Tail>, e: Event)
    requires i < |s.tails| && EventBalance(s, e)
    requires Owing(e)(s.tails[i]) == (if fire == e then 1 else 0) + Sum(next, Owing(e))
    ensures EventBalance(s.(log := s.log + [fire], tails := s.tails[..i] + s.tails[i + 1..] + next), e)
  {
    hide Pending;
    SumRemove(s.tails, i, Owing(e));
    SumAppend(s.tails[..i] + s.tails[i + 1..], next, Owing(e));
  }

  lemma AdvanceBalances(s: State, i: nat, e: Event)
    requires i < |s.tails| && TailOk(s.tails[i]) && EventBalance(s, e)
    ensures EventBalance(Advanced(s, i), e)
  {
    hide EventBalance;
    hide Removing;
    hide Sum;
    var rest := s.tails[..i] + s.tails[i + 1..];
    assert rest + [] == rest;
    match s.tails[i]
    case AddTail(c, done) =>
      SumOneTail(AddTail(c, 1), e);
      if done == 0 {
        FireBalances(s, i, OnAdd(c), [AddTail(c, 1)], e);
      } else {
        FireBalances(s, i, LinkOnAdd(c), [], e);
      }
    case RemoveTail(c, done) =>
      if done == 0 {
        SumOneTail(RemoveTail(c, 1), e);
        FireBalances(s, i, OnRemove(c), [RemoveTail(c, 1)], e);
      } else if done == 1 {
        SumOneTail(RemoveTail(c, 2), e);
        FireBalances(s, i, LinkOnRemove(c), [RemoveTail(c, 2)], e);
      } else {
        SumOneTail(RemoveTail(c, 2), e);
        FireBalances(s, i, Closed(c), [], e);
      }
    case EvictTail(prior) =>
      EvictTailOwesNothing(s, i, e);
      RemovingBalances(s.(tails := rest), prior.id, e);
  }

  lemma EvictTailOwesNothing(s: State, i: nat, e: Event)
    requires i < |s.tails| && s.tails[i].EvictTail? && EventBalance(s, e)
    ensures EventBalance(s.(tails := s.tails[..i] + s.tails[i + 1..]), e)
  {
    SumRemove(s.tails, i, Owing(e));
  }

  lemma {:induction false} OwedByClosing(order: seq<Conn>, e: Event)
    ensures Sum(FreshRemoveTails(order), Owing(e)) ==
            if e.OnAdd? || e.LinkOnAdd? then 0 else multiset(order)[e.c]
  {
    if order == [] {
    } else {
      OwedByClosing(order[1..], e);
      assert FreshRemoveTails(order)[1..] == FreshRemoveTails(order[1..]);
      assert order == [order[0]] + order[1..];
    }
  }

  lemma StepBalances(s: State, op: Op, e: Event)
    requires Enabled(s, op) && EventBalance(s, e) && forall i :: 0 <= i < |s.tails| ==> TailOk(s.tails[i])
    ensures EventBalance(Step(s, op), e)
  {
    match op
    case Add(c, metas) =>
      SumAppend(s.tails, [AddTail(c, 0)], Owing(e));
      SumOneTail(AddTail(c, 0), e);
    case Remove(id) => RemovingBalances(s, id, e);
    case UpdateNode(node, conn, metas) =>
      if Victim(s.t, metas, node, conn) != "" {
        var tail := EvictTail(s.t.nodes[node]);
        SumAppend(s.tails, [tail], Owing(e));
        SumOneTail(tail, e);
      }
    case UpdateDevice(dev, conn) =>
    case CloseAll(order) =>
      SumAppend(s.tails, FreshRemoveTails(order), Owing(e));
      OwedByClosing(order, e);
    case Advance(i) => AdvanceBalances(s, i, e);
  }

  lemma RemovingKeepsMembership(s: State, id: string, c: Conn)
    requires Keyed(s.t) && MembershipBalance(s, c)
    ensures MembershipBalance(Removing(s, id), c)
  {
    hide Without;
  }

  lemma StepKeepsMembership(s: State, op: Op, c: Conn)
    requires Keyed(s.t) && Enabled(s, op) && MembershipBalance(s, c)
    ensures MembershipBalance(Step(s, op), c)
  {
    hide Removing;
    hide Victim;
    hide ExtractNodeID;
    hide DeviceOf;
    match op
    case CloseAll(order) =>
      SnapshotMembers(order, s.t);
      CountDistinct(order, c);
      hide Snapshot;
    case Remove(id) => RemovingKeepsMembership(s, id, c);
    case Advance(i) =>
      if s.tails[i].EvictTail? {
        RemovingKeepsMembership(s.(tails := s.tails[..i] + s.tails[i + 1..]), s.tails[i].prior.id, c);
      }
    case _ =>
  }

  lemma {:induction false} CountDistinct(order: seq<Conn>, c: Conn)
    requires NoDuplicates(order)
    ensures multiset(order)[c] == if c in order then 1 else 0
  {
    if order != [] {
      CountDistinct(order[1..], c);
      assert order == [order[0]] + order[1..];
    }
  }

  ghost predicate Sound(s: State) {
    && Keyed(s.t)
    && (forall i :: 0 <= i < |s.tails| ==> TailOk(s.tails[i]))
    && (forall e: Event :: EventBalance(s, e))
    && (forall c: Conn :: MembershipBalance(s, c))
  }

  lemma StartIsSound()
    ensures Sound(START)
  {
  }

  lemma StepKeepsSound(s: State, op: Op)
    requires Sound(s) && Enabled(s, op)
    ensures Sound(Step(s, op))
  {
    StepKeepsKeys(s, op);
    forall e: Event ensures EventBalance(Step(s, op), e) { StepBalances(s, op, e); }
    forall c: Conn ensures MembershipBalance(Step(s, op), c) { StepKeepsMembership(s, op, c); }
  }

  lemma StepKeepsKeys(s: State, op: Op)
    requires Keyed(s.t) && Enabled(s, op) && forall i :: 0 <= i < |s.tails| ==> TailOk(s.tails[i])
    ensures var s' := Step(s, op); Keyed(s'.t) && forall i :: 0 <= i < |s'.tails| ==> TailOk(s'.tails[i])
  {
    hide Victim;
    hide ExtractNodeID;
    hide DeviceOf;
    hide Without;
  }

  lemma {:induction false} RunKeepsSound(s: State, ops: seq<Op>)
    requires Sound(s) && IsRun(s, ops)
    ensures Sound(After(s, ops))
    decreases |ops|
  {
    hide Sound;
    hide Step;
    if ops != [] {
      StepKeepsSound(s, ops[0]);
      RunKeepsSound(Step(s, ops[0]), ops[1..]);
    }
  }

  /**
   Lifecycle: in every run from an empty manager, no hook or Close ever fires more often than the
   adds or removes behind it, and once no caller is mid-way each add period has fired both add
   hooks, and each ended one both remove hooks and Close, exactly once.
   */
  lemma Lifecycle(ops: seq<Op>, c: Conn)
    requires IsRun(START, ops)
    ensures var s := After(START, ops);
            var fired := multiset(s.log);
            && fired[OnAdd(c)] <= multiset(s.adds)[c] && fired[LinkOnAdd(c)] <= multiset(s.adds)[c]
            && fired[OnRemove(c)] <= multiset(s.removes)[c] && fired[LinkOnRemove(c)] <= multiset(s.removes)[c]
            && fired[Closed(c)] <= multiset(s.removes)[c] <= multiset(s.adds)[c]
            && (s.tails == [] ==>
                  && fired[OnAdd(c)] == fired[LinkOnAdd(c)] == multiset(s.adds)[c]
                  && fired[OnRemove(c)] == fired[LinkOnRemove(c)] == fired[Closed(c)]
                  && fired[OnAdd(c)] == fired[Closed(c)] + if Managed(s.t, c) then 1 else 0)
  {
    StartIsSound();
    RunKeepsSound(START, ops);
    var s := After(START, ops);
    assert EventBalance(s, OnAdd(c)) && EventBalance(s, LinkOnAdd(c)) && EventBalance(s, OnRemove(c))
           && EventBalance(s, LinkOnRemove(c)) && EventBalance(s, Closed(c)) && MembershipBalance(s, c);
  }

  // ---------------------------------------------------------------- the order of the hooks

  /** The two hooks of a connection, or of its link. */
  function Added(c: Conn, link: bool): (e: Event) { if link then LinkOnAdd(c) else OnAdd(c) }
  function Gone(c: Conn, link: bool): (e: Event) { if link then LinkOnRemove(c) else OnRemove(c) }

  /** So far the remove hook has not fired more often than the add hook. */
  ghost predicate HooksInOrder(s: State, c: Conn, link: bool) {
    multiset(s.log)[Gone(c, link)] <= multiset(s.log)[Added(c, link)]
  }

  /** An add of c has not fired its hook yet; the link hook is the second of the two. */
  ghost predicate AddOpen(s: State, c: Conn, link: bool) {
    exists i :: 0 <= i < |s.tails| && Unadded(s.tails[i], c, link)
  }

  predicate Unadded(tail: Tail, c: Conn, link: bool) { tail.AddTail? && tail.c == c && (link || tail.done == 0) }

  /** The step takes c out of the primary map. */
  ghost predicate Removes(s: State, op: Op, c: Conn)
    requires Enabled(s, op)
  {
    match op
    case Remove(id) => c.id == id && Managed(s.t, c)
    case CloseAll(order) => Managed(s.t, c)
    case Advance(i) => s.tails[i].EvictTail? && s.tails[i].prior.id == c.id && Managed(s.t, c)
    case _ => false
  }

  /** No removal of c takes effect while an add of c is open. */
  ghost predicate Orderly(s: State, ops: seq<Op>, c: Conn, link: bool)
    requires IsRun(s, ops)
    decreases |ops|
  {
    ops != [] ==> !(Removes(s, ops[0], c) && AddOpen(s, c, link)) && Orderly(Step(s, ops[0]), ops[1..], c, link)
  }

  /** What is owed cannot upset the order: the add hook is owed at most once, and only while c is managed. */
  ghost predicate Safe(s: State, c: Conn, link: bool) {
    Sum(s.tails, Owing(Added(c, link))) <= if Managed(s.t, c) then 1 else 0
  }

  lemma {:induction false} OwedIffPending(tails: seq<Tail>, e: Event)
    ensures Sum(tails, Owing(e)) > 0 <==> exists i :: 0 <= i < |tails| && Pending(tails[i], e)
  {
    hide Pending;
    if tails != [] {
      OwedIffPending(tails[1..], e);
      if i :| 0 <= i < |tails| && Pending(tails[i], e) {
        assert i > 0 ==> Pending(tails[1..][i - 1], e);
      }
      if j :| 0 <= j < |tails[1..]| && Pending(tails[1..][j], e) {
        assert Pending(tails[j + 1], e);
      }
    }
  }

  lemma OpenIffOwed(s: State, c: Conn, link: bool)
    requires forall i :: 0 <= i < |s.tails| ==> TailOk(s.tails[i])
    ensures AddOpen(s, c, link) <==> Sum(s.tails, Owing(Added(c, link))) > 0
  {
    OwedIffPending(s.tails, Added(c, link));
    assert forall i :: 0 <= i < |s.tails| ==> Unadded(s.tails[i], c, link) == Pending(s.tails[i], Added(c, link));
  }

  /** In a sound state: every removal of c so far is matched by an add hook that has fired. */
  lemma SafeIffMatched(s: State, c: Conn, link: bool)
    requires Sound(s)
    ensures Safe(s, c, link) <==> multiset(s.removes)[c] <= multiset(s.log)[Added(c, link)]
    ensures Safe(s, c, link) ==> HooksInOrder(s, c, link)
  {
    assert EventBalance(s, Added(c, link)) && EventBalance(s, Gone(c, link)) && MembershipBalance(s, c);
  }

  lemma RemovingCounts(s: State, id: string, c: Conn)
    requires Keyed(s.t)
    ensures multiset(Removing(s, id).removes)[c] ==
            multiset(s.removes)[c] + if c.id == id && Managed(s.t, c) then 1 else 0
    ensures Removing(s, id).log == s.log
  {
    hide RemoveLocked;
  }

  /** A step adds at most the removal of c it makes, and takes no hook back. */
  lemma StepCounts(s: State, op: Op, c: Conn, link: bool)
    requires Keyed(s.t) && Enabled(s, op)
    ensures var s' := Step(s, op);
            && multiset(s'.removes)[c] == multiset(s.removes)[c] + (if Removes(s, op, c) then 1 else 0)
            && multiset(s'.log)[Added(c, link)] >= multiset(s.log)[Added(c, link)]
            && (Removes(s, op, c) ==> s'.log == s.log)
  {
    hide Removing;
    hide Victim;
    hide AddLocked;
    match op
    case Remove(id) => RemovingCounts(s, id, c);
    case CloseAll(order) =>
      SnapshotMembers(order, s.t);
      CountDistinct(order, c);
    case Advance(i) =>
      if s.tails[i].EvictTail? {
        RemovingCounts(s.(tails := s.tails[..i] + s.tails[i + 1..]), s.tails[i].prior.id, c);
      }
    case _ =>
  }

  /** A safe state is left exactly by removing c while an add of c is open. */
  lemma StepSafeIff(s: State, op: Op, c: Conn, link: bool)
    requires Sound(s) && Safe(s, c, link) && Enabled(s, op)
    ensures Sound(Step(s, op))
    ensures Safe(Step(s, op), c, link) <==> !(Removes(s, op, c) && AddOpen(s, c, link))
  {
    StepKeepsSound(s, op);
    SafeIffMatched(s, c, link);
    SafeIffMatched(Step(s, op), c, link);
    StepCounts(s, op, c, link);
    OpenIffOwed(s, c, link);
    assert EventBalance(s, Added(c, link)) && MembershipBalance(s, c);
    hide Step;
    hide Sum;
    hide Sound;
    hide AddOpen;
  }

  /** Nothing but open hooks and closes run: no new call, no eviction. */
  ghost predicate Firing(s: State, ops: seq<Op>)
    requires IsRun(s, ops)
    decreases |ops|
  {
    ops != [] ==> ops[0].Advance? && !s.tails[ops[0].i].EvictTail? && Firing(Step(s, ops[0]), ops[1..])
  }

  lemma {:induction false} FiringIsOrderly(s: State, ops: seq<Op>, c: Conn, link: bool)
    requires IsRun(s, ops) && Firing(s, ops)
    ensures Orderly(s, ops, c, link)
    decreases |ops|
  {
    hide Step;
    if ops != [] {
      FiringIsOrderly(Step(s, ops[0]), ops[1..], c, link);
    }
  }

  /** In every orderly run, the remove hook never gets ahead of the add hook. */
  lemma {:induction false} OrderlyKeepsOrder(s: State, ops: seq<Op>, c: Conn, link: bool)
    requires Sound(s) && Safe(s, c, link) && IsRun(s, ops) && Orderly(s, ops, c, link)
    ensures HooksInOrder(After(s, ops), c, link)
    decreases |ops|
  {
    SafeIffMatched(s, c, link);
    hide Sound;
    hide Safe;
    hide Step;
    hide HooksInOrder;
    if ops != [] {
      StepSafeIff(s, ops[0], c, link);
      OrderlyKeepsOrder(Step(s, ops[0]), ops[1..], c, link);
    }
  }

  lemma RunCons(s: State, op: Op, ops: seq<Op>)
    requires Enabled(s, op) && IsRun(Step(s, op), ops)
    ensures IsRun(s, [op] + ops) && After(s, [op] + ops) == After(Step(s, op), ops)
    ensures op.Advance? && !s.tails[op.i].EvictTail? && Firing(Step(s, op), ops) ==> Firing(s, [op] + ops)
  {
    hide Step;
    assert ([op] + ops)[1..] == ops;
  }

  /** Once unsafe, the open removals can get ahead: let them fire their hooks first. */
  lemma ShowDisorder(s: State, c: Conn, link: bool) returns (more: seq<Op>)
    requires Sound(s) && !Safe(s, c, link)
    ensures IsRun(s, more) && Firing(s, more) && !HooksInOrder(After(s, more), c, link)
    decreases Sum(s.tails, Owing(OnRemove(c))) + Sum(s.tails, Owing(LinkOnRemove(c)))
  {
    if !HooksInOrder(s, c, link) {
      return [];
    }
    SafeIffMatched(s, c, link);
    assert EventBalance(s, Gone(c, link));
    OwedIffPending(s.tails, Gone(c, link));
    var i :| 0 <= i < |s.tails| && Pending(s.tails[i], Gone(c, link));
    var op := Advance(i);
    var s1 := Step(s, op);
    StepKeepsSound(s, op);
    SafeIffMatched(s1, c, link);
    RemoveHookFires(s, i, c);
    hide Step;
    hide Sound;
    hide Pending;
    hide Safe;
    var rest := ShowDisorder(s1, c, link);
    RunCons(s, op, rest);
    more := [op] + rest;
  }

  /** Advancing a removal that owes a hook fires the next one, and no add hook. */
  lemma RemoveHookFires(s: State, i: nat, c: Conn)
    requires Sound(s) && i < |s.tails| && s.tails[i].RemoveTail? && s.tails[i].c == c && s.tails[i].done <= 1
    ensures var s1 := Step(s, Advance(i));
            && s1.removes == s.removes
            && (forall link :: multiset(s1.log)[Added(c, link)] == multiset(s.log)[Added(c, link)])
            && Sum(s1.tails, Owing(OnRemove(c))) + Sum(s1.tails, Owing(LinkOnRemove(c)))
               < Sum(s.tails, Owing(OnRemove(c))) + Sum(s.tails, Owing(LinkOnRemove(c)))
  {
    var s1 := Step(s, Advance(i));
    StepKeepsSound(s, Advance(i));
    assert EventBalance(s, OnRemove(c)) && EventBalance(s, LinkOnRemove(c));
    assert EventBalance(s1, OnRemove(c)) && EventBalance(s1, LinkOnRemove(c));
    hide Sum;
    hide Sound;
  }

  /**
   At every state of the run, whatever the callers mid-way still fire, the remove hook is not ahead of
   the add hook.
   */
  ghost predicate AlwaysInOrder(s: State, ops: seq<Op>, c: Conn, link: bool)
    requires IsRun(s, ops)
    decreases |ops|
  {
    && (forall more | IsRun(s, more) && Firing(s, more) :: HooksInOrder(After(s, more), c, link))
    && (ops != [] ==> AlwaysInOrder(Step(s, ops[0]), ops[1..], c, link))
  }

  lemma {:induction false} HookOrderFrom(s: State, ops: seq<Op>, c: Conn, link: bool)
    requires Sound(s) && Safe(s, c, link) && IsRun(s, ops)
    ensures AlwaysInOrder(s, ops, c, link) <==> Orderly(s, ops, c, link)
    decreases |ops|
  {
    hide Sound;
    hide Safe;
    hide Step;
    hide HooksInOrder;
    hide AddOpen;
    forall more | IsRun(s, more) && Firing(s, more) ensures HooksInOrder(After(s, more), c, link) {
      FiringIsOrderly(s, more, c, link);
      OrderlyKeepsOrder(s, more, c, link);
    }
    if ops != [] {
      var s1 := Step(s, ops[0]);
      StepSafeIff(s, ops[0], c, link);
      if Safe(s1, c, link) {
        HookOrderFrom(s1, ops[1..], c, link);
      } else {
        var more := ShowDisorder(s1, c, link);
        assert !AlwaysInOrder(s1, ops[1..], c, link);
      }
    }
  }

  /**
   When the hooks of a connection, or those of its link, fire in order. For every run from an empty
   manager: the remove hook never gets ahead of the add hook, at any state and whatever the callers
   mid-way go on to fire, if and only if no removal of the connection takes effect while an add of
   it has yet to fire that hook.
   */
  lemma HookOrderIff(ops: seq<Op>, c: Conn, link: bool)
    requires IsRun(START, ops)
    ensures AlwaysInOrder(START, ops, c, link) <==> Orderly(START, ops, c, link)
  {
    StartIsSound();
    HookOrderFrom(START, ops, c, link);
  }

  /** A remove can overtake the hooks of the add it undoes: OnRemove fires while OnAdd is still owed. */
  lemma RemoveOvertakesAdd(c: Conn, metas: Metas)
    ensures var ops := [Add(c, metas), Remove(c.id), Advance(1)];
            && IsRun(START, ops) && !Orderly(START, ops, c, false)
            && After(START, ops).log == [OnRemove(c)]
            && After(START, ops).tails == [AddTail(c, 0), RemoveTail(c, 1)]
  {
    var s1 := Step(START, Add(c, metas));
    assert s1.tails == [AddTail(c, 0)];
    var s2 := Step(s1, Remove(c.id));
    assert s2.tails == [AddTail(c, 0), RemoveTail(c, 0)];
    var s3 := Step(s2, Advance(1));
    assert s3.log == [OnRemove(c)] && s3.tails == [AddTail(c, 0), RemoveTail(c, 1)];
    assert Unadded(s1.tails[0], c, false);
    assert Removes(s1, Remove(c.id), c) && AddOpen(s1, c, false);
    hide Step;
    assert IsRun(s3, []) && [Advance(1)][1..] == [];
    RunCons(s2, Advance(1), []);
    assert [Advance(1)] + [] == [Advance(1)];
    RunCons(s1, Remove(c.id), [Advance(1)]);
    RunCons(START, Add(c, metas), [Remove(c.id), Advance(1)]);
    var ops := [Add(c, metas), Remove(c.id), Advance(1)];
    assert ops == [Add(c, metas)] + [Remove(c.id), Advance(1)];
    assert ops[1..] == [Remove(c.id)] + [Advance(1)];
    assert !Orderly(s1, ops[1..], c, false);
  }

  // ---------------------------------------------------------------- what an eviction removes

  /** The eviction opened against `prior` removes another connection in its place. */
  ghost predicate WrongVictim(s: State, i: nat)
    requires i < |s.tails| && s.tails[i].EvictTail?
  {
    exists x: Conn :: x != s.tails[i].prior && Step(s, Advance(i)).removes == s.removes + [x]
  }

  /** Another connection is stored under the predecessor's ID. */
  predicate Replaced(t: Table, prior: Conn) {
    prior.id in t.conns && t.conns[prior.id] != prior
  }

  /** It does so exactly when another connection is stored under that ID when it runs. */
  lemma WrongVictimIff(s: State, i: nat)
    requires i < |s.tails| && s.tails[i].EvictTail?
    ensures WrongVictim(s, i) <==> Replaced(s.t, s.tails[i].prior)
    ensures Step(s, Advance(i)).removes == s.removes + [s.tails[i].prior] <==> Managed(s.t, s.tails[i].prior)
  {
    var id := s.tails[i].prior.id;
    var s' := Step(s, Advance(i));
    if id in s.t.conns {
      assert s'.removes == s.removes + [s.t.conns[id]];
      assert s'.removes[|s.removes|] == s.t.conns[id];
    } else {
      assert s'.removes == s.removes;
    }
  }

  /** No Add under the ID takes effect in the run. */
  ghost predicate NoAddUnder(s: State, ops: seq<Op>, id: string)
    requires IsRun(s, ops)
    decreases |ops|
  {
    ops != [] ==>
      && !(ops[0].Add? && ops[0].c.id == id && id !in s.t.conns)
      && NoAddUnder(Step(s, ops[0]), ops[1..], id)
  }

  lemma StepReplaces(s: State, op: Op, prior: Conn)
    requires Enabled(s, op) && !Replaced(s.t, prior)
    ensures Replaced(Step(s, op).t, prior) ==> op.Add? && op.c.id == prior.id && op.c != prior && prior.id !in s.t.conns
  {
    hide Victim;
    hide ExtractNodeID;
    hide DeviceOf;
    hide Without;
  }

  lemma {:induction false} StaysUnreplaced(s: State, ops: seq<Op>, prior: Conn)
    requires IsRun(s, ops) && NoAddUnder(s, ops, prior.id) && !Replaced(s.t, prior)
    ensures !Replaced(After(s, ops).t, prior)
    decreases |ops|
  {
    hide Step;
    if ops != [] {
      StepReplaces(s, ops[0], prior);
      StaysUnreplaced(Step(s, ops[0]), ops[1..], prior);
    }
  }

  /**
   An eviction opened on a consistent table, and run at any later moment of any run: it removes a
   connection other than its predecessor if and only if another is then stored under that ID, and
   never if no Add under that ID took effect since.
   */
  lemma EvictionExact(s: State, node: u32, conn: Conn, metas: Metas, ops: seq<Op>, i: nat)
    requires Consistent(s.t) && Victim(s.t, metas, node, Some(conn)) != ""
    requires IsRun(Step(s, UpdateNode(node, Some(conn), metas)), ops)
    requires var s' := After(Step(s, UpdateNode(node, Some(conn), metas)), ops);
             i < |s'.tails| && s'.tails[i] == EvictTail(s.t.nodes[node])
    ensures var s1 := Step(s, UpdateNode(node, Some(conn), metas));
            var s', prior := After(s1, ops), s.t.nodes[node];
            && EvictTail(prior) in s1.tails && Managed(s1.t, prior)
            && (WrongVictim(s', i) <==> Replaced(s'.t, prior))
            && (NoAddUnder(s1, ops, prior.id) ==> !WrongVictim(s', i))
  {
    var s1 := Step(s, UpdateNode(node, Some(conn), metas));
    var prior := s.t.nodes[node];
    assert s1.tails[|s.tails|] == EvictTail(prior);
    assert s1.t.conns == s.t.conns && Managed(s.t, prior);
    WrongVictimIff(After(s1, ops), i);
    if NoAddUnder(s1, ops, prior.id) {
      StaysUnreplaced(s1, ops, prior);
    }
  }

  lemma {:induction false} RunSnoc(s: State, ops: seq<Op>, op: Op)
    requires IsRun(s, ops) && GuardedRun(s, ops) && Enabled(After(s, ops), op) && Guarded(After(s, ops), op)
    ensures IsRun(s, ops + [op]) && GuardedRun(s, ops + [op]) && After(s, ops + [op]) == Step(After(s, ops), op)
    decreases |ops|
  {
    hide Step;
    hide Guarded;
    if ops == [] {
      assert ops + [op] == [op] && [op][1..] == [];
    } else {
      RunSnoc(Step(s, ops[0]), ops[1..], op);
      assert (ops + [op])[0] == ops[0] && (ops + [op])[1..] == ops[1..] + [op];
    }
  }

  function Bound(cs: seq<Conn>, node: u32): (ms: Metas) {
    map c | c in cs :: map["nodeID" := U32(node)]
  }

  /** The rival takes the node over from its predecessor: an eviction is open. */
  lemma OpenEviction(node: u32, prior: Conn, rival: Conn) returns (ops: seq<Op>)
    requires node != 0 && prior.id != "" && rival.id != prior.id
    ensures IsRun(START, ops) && GuardedRun(START, ops)
    ensures var s := After(START, ops);
            && s.t.conns == map[prior.id := prior, rival.id := rival]
            && s.tails == [AddTail(prior, 0), AddTail(rival, 0), EvictTail(prior)]
  {
    var m1, m2 := Bound([prior], node), Bound([prior, rival], node);
    assert GetMeta(m1, prior, "nodeID") == Some(U32(node));
    assert DirectBind(m2, node, prior) && DirectBind(m2, node, rival);
    var s1 := Step(START, Add(prior, m1));
    assert s1.t.nodes == map[node := prior] && s1.t.conns == map[prior.id := prior] && s1.tails == [AddTail(prior, 0)];
    var s2 := Step(s1, Add(rival, map[]));
    assert s2.t.nodes == map[node := prior] && s2.tails == [AddTail(prior, 0), AddTail(rival, 0)];
    assert s2.t.conns == map[prior.id := prior, rival.id := rival] && Managed(s2.t, rival);
    var s3 := Step(s2, UpdateNode(node, Some(rival), m2));
    assert s3.tails == [AddTail(prior, 0), AddTail(rival, 0), EvictTail(prior)] && s3.t.conns == s2.t.conns;
    hide Step;
    RunSnoc(START, [], Add(prior, m1));
    ops := [] + [Add(prior, m1)];
    RunSnoc(START, ops, Add(rival, map[]));
    ops := ops + [Add(rival, map[])];
    RunSnoc(START, ops, UpdateNode(node, Some(rival), m2));
    ops := ops + [UpdateNode(node, Some(rival), m2)];
  }

  /**
   A run from an empty manager, every update with a managed connection, after which an eviction
   removes a newcomer: the predecessor leaves and another connection takes its ID in between.
   */
  lemma EvictionHitsNewcomer(node: u32, prior: Conn, rival: Conn, newcomer: Conn) returns (ops: seq<Op>)
    requires node != 0 && prior.id != "" && rival.id != prior.id && newcomer.id == prior.id && newcomer != prior
    ensures IsRun(START, ops) && GuardedRun(START, ops)
    ensures var s := After(START, ops);
            && |s.tails| == 5 && s.tails[2] == EvictTail(prior) && Managed(s.t, newcomer)
            && WrongVictim(s, 2) && !Managed(Step(s, Advance(2)).t, newcomer)
  {
    ops := OpenEviction(node, prior, rival);
    var s3 := After(START, ops);
    var s4 := Step(s3, Remove(prior.id));
    assert s4.tails == s3.tails + [RemoveTail(prior, 0)] && prior.id !in s4.t.conns;
    var s5 := Step(s4, Add(newcomer, map[]));
    assert s5.tails == s4.tails + [AddTail(newcomer, 0)] && s5.t.conns[prior.id] == newcomer;
    WrongVictimIff(s5, 2);
    assert !Managed(Step(s5, Advance(2)).t, newcomer);
    hide Step;
    hide After;
    hide IsRun;
    hide GuardedRun;
    RunSnoc(START, ops, Remove(prior.id));
    ops := ops + [Remove(prior.id)];
    RunSnoc(START, ops, Add(newcomer, map[]));
    ops := ops + [Add(newcomer, map[])];
  }

  // ---------------------------------------------------------------- calls that nobody disturbs

  lemma RunJoin(s: State, a: seq<Op>, b: seq<Op>)
    requires IsRun(s, a) && IsRun(After(s, a), b)
    ensures IsRun(s, a + b) && After(s, a + b) == After(After(s, a), b)
    decreases |a|
  {
    hide Step;
    if a == [] {
      assert a + b == b;
    } else {
      RunJoin(Step(s, a[0]), a[1..], b);
      assert (a + b)[0] == a[0] && (a + b)[1..] == a[1..] + b;
    }
  }

  lemma RunOne(s: State, op: Op)
    requires Enabled(s, op)
    ensures IsRun(s, [op]) && After(s, [op]) == Step(s, op)
  {
    var s' := Step(s, op);
    hide Step;
    assert [op][1..] == [] && IsRun(s', []) && After(s', []) == s';
  }

  /** Tail i is a removal that has just begun: three actions end it. */
  lemma FireRemoval(s: State, i: nat, c: Conn) returns (ops: seq<Op>)
    requires i < |s.tails| && s.tails[i] == RemoveTail(c, 0)
    ensures IsRun(s, ops)
    ensures After(s, ops) ==
            s.(log := s.log + RemoveEvents(c, true, true), tails := s.tails[..i] + s.tails[i + 1..])
  {
    var rest, k := s.tails[..i] + s.tails[i + 1..], |s.tails| - 1;
    var s1 := s.(log := s.log + [OnRemove(c)], tails := rest + [RemoveTail(c, 1)]);
    var s2 := s.(log := s.log + [OnRemove(c)] + [LinkOnRemove(c)], tails := rest + [RemoveTail(c, 2)]);
    var s3 := s.(log := s.log + [OnRemove(c)] + [LinkOnRemove(c)] + [Closed(c)], tails := rest);
    assert Step(s, Advance(i)) == s1;
    assert s1.tails[..k] + s1.tails[k + 1..] == rest && s2.tails[..k] + s2.tails[k + 1..] == rest;
    assert Step(s1, Advance(k)) == s2 && Step(s2, Advance(k)) == s3;
    assert s3.log == s.log + RemoveEvents(c, true, true);
    hide Step;
    RunOne(s, Advance(i));
    RunOne(s1, Advance(k));
    RunOne(s2, Advance(k));
    hide IsRun;
    hide After;
    RunJoin(s, [Advance(i)], [Advance(k)]);
    RunJoin(s, [Advance(i)] + [Advance(k)], [Advance(k)]);
    ops := [Advance(i)] + [Advance(k)] + [Advance(k)];
  }

  /** Add, left alone: the table, the log and the hooks are those of the manager's method. */
  lemma AddIsARun(s: State, c: Conn, metas: Metas) returns (ops: seq<Op>)
    requires s.tails == [] && c.id !in s.t.conns
    ensures IsRun(s, ops)
    ensures After(s, ops) ==
            s.(t := AddLocked(s.t, c, metas), log := s.log + [OnAdd(c)] + [LinkOnAdd(c)], adds := s.adds + [c])
  {
    hide AddLocked;
    var s1 := s.(t := AddLocked(s.t, c, metas), tails := [AddTail(c, 0)], adds := s.adds + [c]);
    var s2 := s1.(log := s.log + [OnAdd(c)], tails := [AddTail(c, 1)]);
    var s3 := s1.(log := s.log + [OnAdd(c)] + [LinkOnAdd(c)], tails := []);
    assert Step(s, Add(c, metas)) == s1;
    assert s1.tails[..0] + s1.tails[1..] == [] && s2.tails[..0] + s2.tails[1..] == [];
    assert Step(s1, Advance(0)) == s2 && Step(s2, Advance(0)) == s3;
    hide Step;
    RunOne(s, Add(c, metas));
    RunOne(s1, Advance(0));
    RunOne(s2, Advance(0));
    hide IsRun;
    hide After;
    RunJoin(s, [Add(c, metas)], [Advance(0)]);
    RunJoin(s, [Add(c, metas)] + [Advance(0)], [Advance(0)]);
    ops := [Add(c, metas)] + [Advance(0)] + [Advance(0)];
  }

  /** Remove, left alone. */
  lemma RemoveIsARun(s: State, id: string) returns (ops: seq<Op>)
    requires s.tails == [] && id in s.t.conns
    ensures IsRun(s, ops)
    ensures var c := s.t.conns[id];
            After(s, ops) ==
            s.(t := RemoveAll(s.t, id), log := s.log + RemoveEvents(c, true, true), removes := s.removes + [c])
  {
    hide RemoveLocked;
    hide RemoveEvents;
    var c := s.t.conns[id];
    var s1 := Step(s, Remove(id));
    assert s1 == s.(t := RemoveAll(s.t, id), tails := [RemoveTail(c, 0)], removes := s.removes + [c]);
    RunOne(s, Remove(id));
    var rest := FireRemoval(s1, 0, c);
    assert s1.tails[..0] + s1.tails[1..] == [];
    hide Step;
    hide IsRun;
    hide After;
    RunJoin(s, [Remove(id)], rest);
    ops := [Remove(id)] + rest;
  }

  /** UpdateNodeIndex, left alone, eviction included. */
  lemma UpdateIsARun(s: State, node: u32, conn: Option<Conn>, metas: Metas) returns (ops: seq<Op>)
    requires s.tails == []
    ensures IsRun(s, ops)
    ensures var s', v := After(s, ops), Victim(s.t, metas, node, conn);
            && s'.t == ConnManager.UpdateNode(s.t, metas, node, conn) && s'.tails == []
            && s'.log == s.log + if v != "" && v in s.t.conns then RemoveEvents(s.t.conns[v], true, true) else []
  {
    hide RemoveLocked;
    hide RemoveEvents;
    var op, v := UpdateNode(node, conn, metas), Victim(s.t, metas, node, conn);
    var s1 := Step(s, op);
    RunOne(s, op);
    if v == "" {
      ops := [op];
      return;
    }
    var prior := s.t.nodes[node];
    assert s1.t.conns == s.t.conns && s1.tails == [EvictTail(prior)] && prior.id == v;
    var s2 := Step(s1, Advance(0));
    assert s1.tails[..0] + s1.tails[1..] == [];
    assert s2 == Removing(s1.(tails := []), v);
    RunOne(s1, Advance(0));
    hide Victim;
    RunJoin(s, [op], [Advance(0)]);
    if v in s.t.conns {
      assert s2.tails == [RemoveTail(s.t.conns[v], 0)];
      var rest := FireRemoval(s2, 0, s.t.conns[v]);
      assert s2.tails[..0] + s2.tails[1..] == [];
      hide Step;
      hide IsRun;
      hide After;
      RunJoin(s, [op] + [Advance(0)], rest);
      ops := [op] + [Advance(0)] + rest;
    } else {
      ops := [op] + [Advance(0)];
    }
  }

  /** CloseAll, left alone. */
  lemma CloseAllIsARun(s: State, order: seq<Conn>) returns (ops: seq<Op>)
    requires s.tails == [] && Snapshot(order, s.t)
    ensures IsRun(s, ops)
    ensures After(s, ops) ==
            s.(t := EMPTY_TABLE, log := s.log + AllRemoveEvents(order, true, true), removes := s.removes + order)
  {
    var s1 := Step(s, CloseAll(order));
    assert s1 == s.(t := EMPTY_TABLE, tails := FreshRemoveTails(order), removes := s.removes + order);
    RunOne(s, CloseAll(order));
    hide Step;
    hide Snapshot;
    hide IsRun;
    hide After;
    hide AllRemoveEvents;
    var rest := FireRemovals(s1, order);
    RunJoin(s, [CloseAll(order)], rest);
    ops := [CloseAll(order)] + rest;
  }

  lemma FireRemovals(s: State, order: seq<Conn>) returns (ops: seq<Op>)
    requires s.tails == FreshRemoveTails(order)
    ensures IsRun(s, ops)
    ensures After(s, ops) == s.(log := s.log + AllRemoveEvents(order, true, true), tails := [])
    decreases |order|
  {
    hide Step;
    if order == [] {
      assert s.log + [] == s.log;
      return [];
    }
    var first := FireRemoval(s, 0, order[0]);
    var s1 := After(s, first);
    assert s.tails[..0] + s.tails[1..] == FreshRemoveTails(order[1..]);
    hide IsRun;
    hide After;
    var rest := FireRemovals(s1, order[1..]);
    RunJoin(s, first, rest);
    AllRemoveFirst(order);
    hide AllRemoveEvents;
    hide RemoveEvents;
    assert s.log + RemoveEvents(order[0], true, true) + AllRemoveEvents(order[1..], true, true)
           == s.log + AllRemoveEvents(order, true, true);
    ops := first + rest;
  }

  lemma {:induction false} AllRemoveFirst(order: seq<Conn>)
    requires order != []
    ensures AllRemoveEvents(order, true, true) ==
            RemoveEvents(order[0], true, true) + AllRemoveEvents(order[1..], true, true)
    decreases |order|
  {
    hide RemoveEvents;
    var n := |order| - 1;
    if n == 0 {
      assert order[..0] == [] && order[1..] == [];
      assert AllRemoveEvents([], true, true) == [];
      assert [] + RemoveEvents(order[0], true, true) == RemoveEvents(order[0], true, true) + [];
    } else {
      AllRemoveFirst(order[..n]);
      assert order[..n][1..] == order[1..][..n - 1] && order[1..][n - 1] == order[n] && order[..n][0] == order[0];
    }
  }

  // ---------------------------------------------------------------- the source gate over runs

  /** The operation puts node k into the index. */
  predicate Reindexes(op: Op, k: u32) {
    match op
    case Add(c, metas) => ExtractNodeID(metas, c) == k
    case UpdateNode(node, conn, _) => node == k && conn.Some?
    case _ => false
  }

  lemma {:induction false} StaysUnindexed(s: State, ops: seq<Op>, k: u32)
    requires IsRun(s, ops) && k !in s.t.nodes && forall i :: 0 <= i < |ops| ==> !Reindexes(ops[i], k)
    ensures k !in After(s, ops).t.nodes
    decreases |ops|
  {
    if ops != [] {
      assert k !in Step(s, ops[0]).t.nodes;
      StaysUnindexed(Step(s, ops[0]), ops[1..], k);
    }
  }

  /**
   Manager and gate agree: once the connection a source was indexed to is removed, by a call, an
   eviction or CloseAll, frames from that source are rejected on every non-parent link bound to
   another node, by every handler that does not allow mismatch, in every state of every run until
   the source is indexed again.
   */
  lemma RemovedSourceIsRejected(s: State, op: Op, c: Conn, k: u32, ops: seq<Op>,
                                n: Routing.Node, h: Routing.Handler, link: Conn, hdr: Header.IHeader)
    requires Enabled(s, op) && Removes(s, op, c) && k in s.t.nodes && s.t.nodes[k] == c
    requires IsRun(Step(s, op), ops) && forall i :: 0 <= i < |ops| ==> !Reindexes(ops[i], k)
    requires n.table == After(Step(s, op), ops).t && hdr.Source() == k
    requires !h.allowMismatch && !IsParentConn(n.metas, link) && ExtractNodeID(n.metas, link) != k
    ensures Routing.SourceMismatch(n, true, h, link, Some(hdr))
  {
    assert k !in Step(s, op).t.nodes;
    StaysUnindexed(Step(s, op), ops, k);
  }

  /** While indexes are consistent, the gate admits a foreign source only on the very link it is indexed to. */
  lemma GateAdmits(n: Routing.Node, h: Routing.Handler, link: Conn, hdr: Header.IHeader)
    requires Consistent(n.table) && Managed(n.table, link) && !h.allowMismatch && !IsParentConn(n.metas, link)
    ensures !Routing.SourceMismatch(n, true, h, link, Some(hdr)) <==>
            && ExtractNodeID(n.metas, link) != 0
            && (hdr.Source() == ExtractNodeID(n.metas, link)
                || (hdr.Source() in n.table.nodes && n.table.nodes[hdr.Source()] == link))
  {
    if hdr.Source() in n.table.nodes {
      assert Managed(n.table, n.table.nodes[hdr.Source()]);
    }
  }
}
