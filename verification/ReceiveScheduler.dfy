/**
 The receive side: which queue an event goes to, and the queues and workers that hand events to
 `route`. OnReceive never blocks; runs end before the runtime is cancelled.
 */
module ReceiveScheduler {
  import opened Bytes
  import opened Header
  import opened Links
  import opened Remainders

  const TWO_32: nat := 0x1_0000_0000
  const TWO_64: nat := 0x1_0000_0000_0000_0000

  type u64 = x: int | 0 <= x < 0x1_0000_0000_0000_0000

  // ---------------------------------------------------------------- strategies

  /** What every strategy promises for n queues. */
  predicate InRange(q: int, n: int) { if n <= 1 then q == 0 else 0 <= q < n }

  /**
   ConnHashStrategy. The modulus is `uint32(n)`: where that is zero the division panics (None),
   and everywhere else the index is in range.
   */
  function ConnHash(hash: string -> u32, conn: Option<Conn>, hdr: Option<IHeader>, n: int): (q: Option<int>)
    ensures q.Some? ==> InRange(q.value, n)
    ensures q.None? <==> n > 1 && conn.Some? && n % TWO_32 == 0
  {
    if n <= 1 then Some(0)
    else if conn.Some? then
      if n % TWO_32 == 0 then None
      else
        assert n % TWO_32 <= n;
        Some(hash(conn.value.id) % (n % TWO_32))
    else if hdr.Some? then Some(hdr.value.SubProto() % n)
    else Some(0)
  }

  /** SubProtoStrategy. */
  function SubProtoQueue(hdr: Option<IHeader>, n: int): (q: int)
    ensures InRange(q, n)
  {
    if n <= 1 || hdr.None? then 0 else hdr.value.SubProto() % n
  }

  /** `s >> k` on a uint32: shifting by the width or more leaves zero. */
  function ShiftRight(s: u32, k: nat): (r: u32)
    requires k % 8 == 0
  {
    if k == 0 then s else if k == 8 then s / 0x100 else if k == 16 then s / 0x1_0000
    else if k == 24 then s / 0x100_0000 else 0
  }

  /** What SourceTargetStrategy hashes: each ID as a 64-bit big-endian number. */
  function PairKey(s: u32, t: u32): (b: seq<byte>)
    ensures |b| == 16
  {
    [0, 0, 0, 0] + Put32(s) + [0, 0, 0, 0] + Put32(t)
  }

  /** The hash input tells pairs apart. */
  lemma PairKeyIsInjective(s: u32, t: u32, s': u32, t': u32)
    ensures PairKey(s, t) == PairKey(s', t') <==> s == s' && t == t'
  {
    if PairKey(s, t) == PairKey(s', t') {
      var a, b := PairKey(s, t), PairKey(s', t');
      assert a[4..8] == Put32(s) && b[4..8] == Put32(s') && a[12..16] == Put32(t) && b[12..16] == Put32(t');
      SameWord(s, s');
      SameWord(t, t');
    }
  }

  lemma SameWord(v: u32, w: u32)
    requires Put32(v) == Put32(w)
    ensures v == w
  {
    WordOfBytes(v);
    WordOfBytes(w);
    assert forall k :: 0 <= k < 4 ==> Put32(v)[k] == Put32(w)[k];
  }

  function SourceTargetQueue(hash: seq<byte> -> u64, hdr: Option<IHeader>, n: int): (q: int)
    ensures InRange(q, n)
  {
    if n <= 1 || hdr.None? then 0 else hash(PairKey(hdr.value.Source(), hdr.value.Target())) % n
  }

  /** SourceTargetStrategy, with its two loops over the key buffer. */
  method SelectBySourceTarget(hash: seq<byte> -> u64, hdr: Option<IHeader>, n: int) returns (q: int)
    ensures q == SourceTargetQueue(hash, hdr, n)
  {
    if n <= 1 { return 0; }
    if hdr.None? { return 0; }
    var buf := new byte[16](_ => 0);
    var s, t := hdr.value.Source(), hdr.value.Target();
    for i := 0 to 8
      invariant forall j :: 0 <= j < i ==> buf[j] == (if j < 4 then 0 else Put32(s)[j - 4])
    {
      buf[i] := ShiftRight(s, 56 - 8 * i) % 0x100;
    }
    for i := 0 to 8
      invariant forall j :: 0 <= j < 8 ==> buf[j] == (if j < 4 then 0 else Put32(s)[j - 4])
      invariant forall j :: 8 <= j < 8 + i ==> buf[j] == (if j < 12 then 0 else Put32(t)[j - 12])
    {
      buf[8 + i] := ShiftRight(t, 56 - 8 * i) % 0x100;
    }
    assert buf[..] == PairKey(s, t);
    q := hash(buf[..]) % n;
  }

  /**
   Connection hashing: the hash of the ID, modulo the queue count cut to 32 bits; without a
   connection, the sub-protocol.
   */
  lemma ConnHashExactly(hash: string -> u32, conn: Option<Conn>, hdr: Option<IHeader>, n: int)
    requires n > 1 && (conn.Some? ==> n % TWO_32 != 0)
    ensures var q := ConnHash(hash, conn, hdr, n);
            && q.Some?
            && (conn.Some? ==> Remainder(q.value, hash(conn.value.id), n % 4294967296))
            && (conn.None? && hdr.Some? ==> Remainder(q.value, hdr.value.SubProto(), n))
            && (conn.None? && hdr.None? ==> q.value == 0)
  {
    if conn.Some? {
      RemainderOf(hash(conn.value.id), n % TWO_32);
    } else if hdr.Some? {
      RemainderOf(hdr.value.SubProto(), n);
    }
  }

  /** Sub-protocol sharding: the sub-protocol modulo the queue count. */
  lemma SubProtoExactly(hdr: IHeader, n: int)
    requires n > 1
    ensures Remainder(SubProtoQueue(Some(hdr), n), hdr.SubProto(), n)
  {
    RemainderOf(hdr.SubProto(), n);
  }

  /** The bytes of a 64-bit number below 2^32, most significant first. */
  predicate Bytes64(b: seq<byte>, i: nat, v: u32)
    requires i + 8 <= |b|
  {
    && (forall k :: i <= k < i + 4 ==> b[k] == 0)
    && (b[i + 4] as int) * 16777216 + (b[i + 5] as int) * 65536 + (b[i + 6] as int) * 256 + b[i + 7] == v
  }

  /** Pair hashing: the hash of source then target, each as eight bytes, modulo the queue count. */
  lemma SourceTargetExactly(hash: seq<byte> -> u64, hdr: IHeader, n: int)
    requires n > 1
    ensures exists key: seq<byte> ::
              && |key| == 16 && Bytes64(key, 0, hdr.Source()) && Bytes64(key, 8, hdr.Target())
              && Remainder(SourceTargetQueue(hash, Some(hdr), n), hash(key), n)
  {
    var key := PairKey(hdr.Source(), hdr.Target());
    RemainderOf(hash(key), n);
    KeyBytes(hdr.Source(), hdr.Target());
  }

  lemma KeyBytes(s: u32, t: u32)
    ensures Bytes64(PairKey(s, t), 0, s) && Bytes64(PairKey(s, t), 8, t)
  {
    WordOfBytes(s);
    WordOfBytes(t);
    var b := PairKey(s, t);
    assert b[4..8] == Put32(s) && b[12..16] == Put32(t);
    assert forall k :: 0 <= k < 4 ==> b[4 + k] == b[4..8][k] && b[12 + k] == b[12..16][k];
    hide ByteOf;
  }

  /** RoundRobinStrategy: a counter that wraps at 2^64. */
  class RoundRobin {
    var counter: u64

    constructor ()
      ensures counter == 0
    {
      counter := 0;
    }

    /** atomic.AddUint64(c, 1) - 1, both operations modulo 2^64. */
    method NextCounter() returns (v: u64)
      modifies this
      ensures v == old(counter) && counter == Wrapped(old(counter), 1)
    {
      counter := (counter + 1) % TWO_64;
      v := (counter - 1) % TWO_64;
    }

    method SelectQueue(n: int) returns (q: int)
      modifies this
      ensures InRange(q, n)
      ensures n <= 1 ==> counter == old(counter)
      ensures n > 1 ==> counter == Wrapped(old(counter), 1) && q == Pick(old(counter), 0, n)
    {
      if n <= 1 { return 0; }
      var v := NextCounter();
      q := v % n;
    }
  }

  // ---------------------------------------------------------------- fairness of round-robin

  /** The counter after j more picks, and the pick it then gives. */
  function Wrapped(c: u64, j: nat): (v: u64) { (c + j) % TWO_64 }
  function Pick(c: u64, j: nat, n: nat): (q: nat)
    requires n > 1
  {
    Wrapped(c, j) % n
  }

  /** How often queue q is chosen in the k picks from counter c on. */
  function Hits(c: u64, k: nat, n: nat, q: nat): (h: nat)
    requires n > 1
  {
    if k == 0 then 0 else Hits(c, k - 1, n, q) + if Pick(c, k - 1, n) == q then 1 else 0
  }

  /** floor(k/n) or ceil(k/n). */
  predicate Even(h: nat, k: nat, n: nat)
    requires n > 1
  {
    h == k / n || h == (k + n - 1) / n
  }

  /** How many numbers below x leave remainder q. */
  function Below(x: nat, n: nat, q: nat): (m: int)
    requires q < n
  {
    (x + n - 1 - q) / n
  }

  lemma BelowAt(x: nat, n: nat, q: nat, d: int, r: nat)
    requires q < n && r < n && x == d * n + r
    ensures Below(x, n, q) == d + if r > q then 1 else 0
  {
    if r > q {
      assert (d + 1) * n == d * n + n;
      Quotient(x + n - 1 - q, n, d + 1, r - 1 - q);
    } else {
      Quotient(x + n - 1 - q, n, d, r + n - 1 - q);
    }
  }

  lemma BelowStep(x: nat, n: nat, q: nat)
    requires q < n
    ensures Below(x + 1, n, q) == Below(x, n, q) + if x % n == q then 1 else 0
  {
    hide Below;
    Euclid(x, n);
    var d, r := x / n, x % n;
    BelowAt(x, n, q, d, r);
    if r + 1 < n {
      BelowAt(x + 1, n, q, d, r + 1);
    } else {
      assert (d + 1) * n == d * n + n;
      BelowAt(x + 1, n, q, d + 1, 0);
    }
  }

  /** The picks of the window are those of a counter that does not wrap. */
  ghost predicate Unwrapped(c: u64, k: nat, n: nat)
    requires n > 1
  {
    forall j :: 0 <= j < k ==> Pick(c, j, n) == (c + j) % n
  }

  lemma {:induction false} HitsAreADifference(c: u64, k: nat, n: nat, q: nat)
    requires n > 1 && q < n && Unwrapped(c, k, n)
    ensures Hits(c, k, n, q) == Below(c + k, n, q) - Below(c, n, q)
  {
    if k > 0 {
      HitsAreADifference(c, k - 1, n, q);
      assert Pick(c, k - 1, n) == (c + (k - 1)) % n;
      BelowStep(c + (k - 1), n, q);
    }
  }

  lemma DifferenceIsEven(c: nat, k: nat, n: nat, q: nat)
    requires n > 1 && q < n
    ensures var h := Below(c + k, n, q) - Below(c, n, q); h == k / n || h == (k + n - 1) / n
  {
    var y := c + n - 1 - q;
    var a, r := y / n, y % n;
    var b, s := k / n, k % n;
    assert y == a * n + r && k == b * n + s;
    assert (a + b) * n == a * n + b * n && (a + b + 1) * n == a * n + b * n + n && (b + 1) * n == b * n + n;
    if r + s < n { Quotient(y + k, n, a + b, r + s); } else { Quotient(y + k, n, a + b + 1, r + s - n); }
    assert y + k == c + k + n - 1 - q;
    if s == 0 { Quotient(k + n - 1, n, b, n - 1); } else { Quotient(k + n - 1, n, b + 1, s - 1); }
  }

  lemma UnwrappedIsFair(c: u64, k: nat, n: nat, q: nat)
    requires n > 1 && q < n && Unwrapped(c, k, n)
    ensures Even(Hits(c, k, n, q), k, n)
  {
    HitsAreADifference(c, k, n, q);
    DifferenceIsEven(c, k, n, q);
  }

  /** While the counter does not wrap, every window of k picks is spread evenly. */
  lemma FairUntilWrap(c: u64, k: nat, n: nat, q: nat)
    requires n > 1 && q < n && c + k <= TWO_64
    ensures Even(Hits(c, k, n, q), k, n)
  {
    forall j | 0 <= j < k ensures Pick(c, j, n) == (c + j) % n {
      assert Wrapped(c, j) == c + j;
    }
    UnwrappedIsFair(c, k, n, q);
  }

  ghost predicate AlwaysFair(n: nat)
    requires n > 1
  {
    forall c: u64, k: nat, q: nat :: q < n ==> Even(Hits(c, k, n, q), k, n)
  }

  lemma ModOfMod(x: nat, m: nat, n: nat)
    requires m > 0 && n > 0 && m % n == 0
    ensures x % m % n == x % n
  {
    var e, d, r := m / n, x / m, x % m;
    assert m == e * n && x == d * m + r;
    var f, t := r / n, r % n;
    assert r == f * n + t;
    assert d * m == d * (e * n) == d * e * n;
    assert x == d * e * n + f * n + t == (d * e + f) * n + t;
    Quotient(x, n, d * e + f, t);
  }

  lemma DividingIsFair(n: nat)
    requires n > 1 && TWO_64 % n == 0
    ensures AlwaysFair(n)
  {
    forall c: u64, k: nat, q: nat | q < n ensures Even(Hits(c, k, n, q), k, n) {
      forall j | 0 <= j < k ensures Pick(c, j, n) == (c + j) % n { ModOfMod(c + j, TWO_64, n); }
      UnwrappedIsFair(c, k, n, q);
    }
  }

  lemma PickAtWrap(n: nat)
    requires n > 1 && TWO_64 % n != 0
    ensures Pick(TWO_64 - 1, 0, n) == TWO_64 % n - 1
  {
    Euclid(TWO_64, n);
    Quotient(TWO_64 - 1, n, TWO_64 / n, TWO_64 % n - 1);
  }

  lemma PickAfterWrap(n: nat, j: nat)
    requires 1 <= j < n <= TWO_64
    ensures Pick(TWO_64 - 1, j, n) == j - 1
  {
    assert Wrapped(TWO_64 - 1, j) == j - 1;
    Quotient(j - 1, n, 0, j - 1);
  }

  /** If n does not divide 2^64, the n picks starting with the last before the wrap repeat one queue. */
  lemma {:induction false} HitsAfterWrap(n: nat, k: nat, q: nat)
    requires n > 1 && TWO_64 % n != 0 && q == TWO_64 % n - 1 && 1 <= k <= n <= TWO_64
    ensures Hits(TWO_64 - 1, k, n, q) == if k - 1 > q then 2 else 1
  {
    hide Pick;
    if k == 1 {
      PickAtWrap(n);
      assert Hits(TWO_64 - 1, 0, n, q) == 0;
    } else {
      HitsAfterWrap(n, k - 1, q);
      PickAfterWrap(n, k - 1);
    }
  }

  /** Exactly when round-robin is fair for ever, wrap included: the queue count divides 2^64. */
  lemma FairForeverIff(n: nat)
    requires 1 < n <= TWO_64
    ensures AlwaysFair(n) <==> TWO_64 % n == 0
  {
    if TWO_64 % n == 0 {
      DividingIsFair(n);
    } else {
      var q := TWO_64 % n - 1;
      HitsAfterWrap(n, n, q);
      Quotient(n, n, 1, 0);
      Quotient(n + n - 1, n, 1, n - 1);
      assert !Even(Hits(TWO_64 - 1, n, n, q), n, n);
    }
  }

  // ---------------------------------------------------------------- queues and workers

  datatype Strategy = ByConn | BySubProto | BySourceTarget | ByTurn

  datatype Config = Config(
    chans: nat, workers: nat, buffer: nat, strategy: Strategy, hash32: string -> u32, hash64: seq<byte> -> u64)

  /** NewDispatcher leaves at least one channel and one worker; the hash must not divide by zero. */
  predicate Runnable(cfg: Config) {
    && cfg.chans >= 1 && cfg.workers >= 1
    && (cfg.strategy.ByConn? ==> cfg.chans == 1 || cfg.chans % TWO_32 != 0)
  }

  /** An event together with the queue chosen for it. */
  datatype Event = Event(conn: Conn, hdr: IHeader, payload: seq<byte>, queue: nat)

  /**
   `queues` are the channels, `hands` what the workers of each channel took and have not yet
   routed, oldest first. `accepted` and `routed` record the events in the order they entered a
   channel and in the order `route` was called.
   */
  datatype State = State(
    queues: seq<seq<Event>>, hands: seq<seq<Event>>, counter: u64, accepted: seq<Event>, routed: seq<Event>)

  function Start(cfg: Config): (s: State) {
    State(seq(cfg.chans, _ => []), seq(cfg.chans, _ => []), 0, [], [])
  }

  /** selectQueue. */
  function Choose(cfg: Config, s: State, conn: Conn, hdr: IHeader): (q: nat)
    requires Runnable(cfg)
    ensures q < cfg.chans
  {
    match cfg.strategy
    case ByConn => ConnHash(cfg.hash32, Some(conn), Some(hdr), cfg.chans).value
    case BySubProto => SubProtoQueue(Some(hdr), cfg.chans)
    case BySourceTarget => SourceTargetQueue(cfg.hash64, Some(hdr), cfg.chans)
    case ByTurn => if cfg.chans == 1 then 0 else Pick(s.counter, 0, cfg.chans)
  }

  /** Receive: OnReceive, with `parked` a worker waiting on the channel. Take and Route: a worker. */
  datatype Act =
    | Receive(conn: Conn, hdr: IHeader, payload: seq<byte>, parked: bool)
    | Take(i: nat)
    | Route(i: nat, j: nat)

  /** A non-blocking send succeeds when the buffer has room or a worker is waiting. */
  predicate Accepts(cfg: Config, s: State, i: nat, parked: bool)
    requires i < |s.queues| && i < |s.hands|
  {
    |s.queues[i]| < cfg.buffer || (parked && s.queues[i] == [] && |s.hands[i]| < cfg.workers)
  }

  predicate Sized(cfg: Config, s: State) {
    Runnable(cfg) && |s.queues| == |s.hands| == cfg.chans
  }

  predicate Enabled(cfg: Config, s: State, a: Act) {
    && Sized(cfg, s)
    && match a
       case Receive(_, _, _, _) => true
       case Take(i) => i < cfg.chans && s.queues[i] != [] && |s.hands[i]| < cfg.workers
       case Route(i, j) => i < cfg.chans && j < |s.hands[i]|
  }

  function Removed(es: seq<Event>, j: nat): (r: seq<Event>)
    requires j < |es|
  {
    es[..j] + es[j + 1..]
  }

  function DoReceive(cfg: Config, s: State, conn: Conn, hdr: IHeader, payload: seq<byte>, parked: bool): (s': State)
    requires Sized(cfg, s)
  {
    var i := Choose(cfg, s, conn, hdr);
    var s1 := if cfg.strategy.ByTurn? && cfg.chans > 1 then s.(counter := Wrapped(s.counter, 1)) else s;
    var e := Event(conn, hdr, payload, i);
    if Accepts(cfg, s, i, parked)
    then s1.(queues := s.queues[i := s.queues[i] + [e]], accepted := s.accepted + [e])
    else s1
  }

  function DoTake(s: State, i: nat): (s': State)
    requires i < |s.queues| && i < |s.hands| && s.queues[i] != []
  {
    s.(queues := s.queues[i := s.queues[i][1..]], hands := s.hands[i := s.hands[i] + [s.queues[i][0]]])
  }

  function DoRoute(s: State, i: nat, j: nat): (s': State)
    requires i < |s.hands| && j < |s.hands[i]|
  {
    s.(hands := s.hands[i := Removed(s.hands[i], j)], routed := s.routed + [s.hands[i][j]])
  }

  function Step(cfg: Config, s: State, a: Act): (s': State)
    requires Enabled(cfg, s, a)
    ensures Sized(cfg, s')
  {
    match a
    case Receive(conn, hdr, payload, parked) => DoReceive(cfg, s, conn, hdr, payload, parked)
    case Take(i) => DoTake(s, i)
    case Route(i, j) => DoRoute(s, i, j)
  }

  predicate IsRun(cfg: Config, s: State, acts: seq<Act>)
    decreases |acts|
  {
    acts != [] ==> Enabled(cfg, s, acts[0]) && IsRun(cfg, Step(cfg, s, acts[0]), acts[1..])
  }

  function After(cfg: Config, s: State, acts: seq<Act>): (s': State)
    requires IsRun(cfg, s, acts)
    decreases |acts|
  {
    if acts == [] then s else After(cfg, Step(cfg, s, acts[0]), acts[1..])
  }

  // ---------------------------------------------------------------- what is taken

  /**
   Receiving never blocks. The event, as it came, joins the end of the chosen channel and the accepted
   ones exactly if that channel holds fewer than `buffer` events, or is empty with a worker waiting;
   otherwise it is dropped and channels, workers and logs are as they were.
   */
  lemma ReceiveExactly(cfg: Config, s: State, conn: Conn, hdr: IHeader, payload: seq<byte>, parked: bool)
    requires Sized(cfg, s)
    ensures var s', i := Step(cfg, s, Receive(conn, hdr, payload, parked)), Choose(cfg, s, conn, hdr);
            && s'.hands == s.hands && s'.routed == s.routed
            && if |s.queues[i]| < cfg.buffer || (s.queues[i] == [] && parked && |s.hands[i]| < cfg.workers) then
                 exists e :: && s'.accepted == s.accepted + [e] && s'.queues == s.queues[i := s.queues[i] + [e]]
                             && e.conn == conn && e.hdr == hdr && e.payload == payload && e.queue == i
               else s'.accepted == s.accepted && s'.queues == s.queues
  {
    var i := Choose(cfg, s, conn, hdr);
    hide Choose;
    var e := Event(conn, hdr, payload, i);
    var s' := Step(cfg, s, Receive(conn, hdr, payload, parked));
    if Accepts(cfg, s, i, parked) {
      assert s'.accepted == s.accepted + [e] && s'.queues == s.queues[i := s.queues[i] + [e]];
    }
  }

  /** No channel overflows and no worker holds more than one event. */
  ghost predicate Bounded(cfg: Config, s: State) {
    && Sized(cfg, s)
    && forall i :: 0 <= i < cfg.chans ==>
         (|s.queues[i]| <= cfg.buffer || |s.queues[i]| <= 1) && |s.hands[i]| <= cfg.workers
  }

  lemma StepKeepsBounded(cfg: Config, s: State, a: Act)
    requires Bounded(cfg, s) && Enabled(cfg, s, a)
    ensures Bounded(cfg, Step(cfg, s, a))
  {
    hide Choose;
  }

  lemma {:induction false} RunKeepsBounded(cfg: Config, s: State, acts: seq<Act>)
    requires Bounded(cfg, s) && IsRun(cfg, s, acts)
    ensures Bounded(cfg, After(cfg, s, acts))
    decreases |acts|
  {
    hide Bounded;
    hide Step;
    if acts != [] {
      StepKeepsBounded(cfg, s, acts[0]);
      RunKeepsBounded(cfg, Step(cfg, s, acts[0]), acts[1..]);
    }
  }

  /** In every run no channel ever holds more than its buffer, or one event handed to a waiting worker. */
  lemma ChannelsAreBounded(cfg: Config, acts: seq<Act>, i: nat)
    requires Runnable(cfg) && IsRun(cfg, Start(cfg), acts) && i < cfg.chans
    ensures var s := After(cfg, Start(cfg), acts);
            && Sized(cfg, s) && |s.hands[i]| <= cfg.workers
            && |s.queues[i]| <= if cfg.buffer == 0 then 1 else cfg.buffer
  {
    RunKeepsBounded(cfg, Start(cfg), acts);
  }

  // ---------------------------------------------------------------- order

  lemma Regroup<T>(a: seq<T>, x: T, b: seq<T>)
    ensures (a + [x]) + b == a + ([x] + b)
  {
  }

  lemma Associate<T>(a: seq<T>, b: seq<T>, c: seq<T>)
    ensures (a + b) + c == a + (b + c)
  {
  }

  lemma FilterCons<T>(x: T, rest: seq<T>, p: T -> bool)
    ensures Filter([x] + rest, p) == if p(x) then [x] + Filter(rest, p) else Filter(rest, p)
  {
    assert ([x] + rest)[1..] == rest;
  }

  lemma {:induction false} FilterAppend<T>(a: seq<T>, b: seq<T>, p: T -> bool)
    ensures Filter(a + b, p) == Filter(a, p) + Filter(b, p)
  {
    if a == [] {
      assert a + b == b;
    } else {
      hide Filter;
      FilterAppend(a[1..], b, p);
      FilterCons(a[0], a[1..], p);
      FilterCons(a[0], a[1..] + b, p);
      assert [a[0]] + a[1..] == a;
      Associate([a[0]], a[1..], b);
      Associate([a[0]], Filter(a[1..], p), Filter(b, p));
    }
  }

  lemma FilterSnoc<T>(a: seq<T>, x: T, p: T -> bool)
    ensures Filter(a + [x], p) == if p(x) then Filter(a, p) + [x] else Filter(a, p)
  {
    FilterAppend(a, [x], p);
    assert [x][1..] == [];
    assert Filter([x], p) == if p(x) then [x] else [];
  }

  lemma {:induction false} FilterTwice<T>(a: seq<T>, p: T -> bool, r: T -> bool)
    requires forall x <- a :: p(x) ==> r(x)
    ensures Filter(a, p) == Filter(Filter(a, r), p)
  {
    if a != [] {
      FilterTwice(a[1..], p, r);
      var rest := Filter(a[1..], r);
      assert ([a[0]] + rest)[1..] == rest;
    }
  }

  function AtQueue(i: nat): (p: Event -> bool) { (e: Event) => e.queue == i }

  /** What queue i has not yet handed to `route`, oldest first. */
  function Waiting(s: State, i: nat): (es: seq<Event>)
    requires i < |s.hands| && i < |s.queues|
  {
    s.hands[i] + s.queues[i]
  }

  /** Every waiting event sits in the queue chosen for it. */
  ghost predicate Tagged(cfg: Config, s: State) {
    && Sized(cfg, s)
    && forall i, k :: 0 <= i < cfg.chans && 0 <= k < |Waiting(s, i)| ==> Waiting(s, i)[k].queue == i
  }

  /** Queue i works first in, first out: accepted is routed followed by waiting. */
  ghost predicate InOrder(cfg: Config, s: State, i: nat) {
    && Tagged(cfg, s) && i < cfg.chans && |s.hands[i]| <= 1
    && Filter(s.accepted, AtQueue(i)) == Filter(s.routed, AtQueue(i)) + Waiting(s, i)
  }

  lemma TakeKeepsWaiting(s: State, i: nat, k: nat)
    requires i < |s.hands| == |s.queues| && s.queues[i] != [] && k < |s.hands|
    ensures Waiting(DoTake(s, i), k) == Waiting(s, k)
  {
    if k == i {
      var q := s.queues[i];
      assert q == [q[0]] + q[1..];
    }
  }

  lemma StepKeepsTags(cfg: Config, s: State, a: Act)
    requires Tagged(cfg, s) && Enabled(cfg, s, a)
    ensures Tagged(cfg, Step(cfg, s, a))
  {
    hide Choose;
    var s' := Step(cfg, s, a);
    forall i, k | 0 <= i < cfg.chans && 0 <= k < |Waiting(s', i)| ensures Waiting(s', i)[k].queue == i {
      match a {
        case Take(x) => TakeKeepsWaiting(s, x, i);
        case Receive(_, _, _, _) =>
          assert k < |Waiting(s, i)| ==> Waiting(s', i)[k] == Waiting(s, i)[k];
        case Route(x, j) =>
          if i == x {
            assert Waiting(s', i)[k] == Waiting(s, i)[if k < j then k else k + 1];
          } else {
            assert Waiting(s', i)[k] == Waiting(s, i)[k];
          }
      }
    }
  }

  lemma ReceiveKeepsOrder(cfg: Config, s: State, a: Act, i: nat)
    requires InOrder(cfg, s, i) && a.Receive?
    ensures var s' := Step(cfg, s, a);
            && |s'.hands[i]| <= 1
            && Filter(s'.accepted, AtQueue(i)) == Filter(s'.routed, AtQueue(i)) + Waiting(s', i)
  {
    var q := Choose(cfg, s, a.conn, a.hdr);
    hide Choose;
    hide Filter;
    var e := Event(a.conn, a.hdr, a.payload, q);
    FilterSnoc(s.accepted, e, AtQueue(i));
  }

  lemma RouteKeepsOrder(cfg: Config, s: State, x: nat, i: nat)
    requires InOrder(cfg, s, i) && x < cfg.chans && s.hands[x] != []
    requires x == i || |s.hands[x]| <= 1
    ensures var s' := DoRoute(s, x, 0);
            && |s'.hands[i]| <= 1
            && Filter(s'.accepted, AtQueue(i)) == Filter(s'.routed, AtQueue(i)) + Waiting(s', i)
  {
    hide Filter;
    var e := s.hands[x][0];
    assert Waiting(s, x)[0] == e;
    FilterSnoc(s.routed, e, AtQueue(i));
    if x == i {
      assert s.hands[i] == [e] && Removed(s.hands[i], 0) == [];
      Regroup(Filter(s.routed, AtQueue(i)), e, s.queues[i]);
      assert Waiting(DoRoute(s, x, 0), i) == s.queues[i];
    } else {
      assert Waiting(DoRoute(s, x, 0), i) == Waiting(s, i);
    }
  }

  /** One worker per channel keeps every queue in order. */
  lemma StepKeepsOrder(cfg: Config, s: State, a: Act)
    requires cfg.workers == 1 && Sized(cfg, s) && Enabled(cfg, s, a)
    requires forall i :: 0 <= i < cfg.chans ==> InOrder(cfg, s, i)
    ensures forall i :: 0 <= i < cfg.chans ==> InOrder(cfg, Step(cfg, s, a), i)
  {
    assert InOrder(cfg, s, 0);
    StepKeepsTags(cfg, s, a);
    hide Filter;
    forall i | 0 <= i < cfg.chans ensures InOrder(cfg, Step(cfg, s, a), i) {
      assert InOrder(cfg, s, i);
      match a {
        case Receive(_, _, _, _) => ReceiveKeepsOrder(cfg, s, a, i);
        case Take(x) => TakeKeepsWaiting(s, x, i);
        case Route(x, j) =>
          assert InOrder(cfg, s, x);
          RouteKeepsOrder(cfg, s, x, i);
      }
    }
  }

  lemma {:induction false} RunKeepsOrder(cfg: Config, s: State, acts: seq<Act>)
    requires cfg.workers == 1 && Sized(cfg, s) && IsRun(cfg, s, acts)
    requires forall i :: 0 <= i < cfg.chans ==> InOrder(cfg, s, i)
    ensures forall i :: 0 <= i < cfg.chans ==> InOrder(cfg, After(cfg, s, acts), i)
    decreases |acts|
  {
    hide InOrder;
    hide Step;
    if acts != [] {
      StepKeepsOrder(cfg, s, acts[0]);
      RunKeepsOrder(cfg, Step(cfg, s, acts[0]), acts[1..]);
    }
  }

  /** With one worker per channel, every queue is first in, first out, in every run. */
  lemma QueuesAreFifo(cfg: Config, acts: seq<Act>, i: nat)
    requires Runnable(cfg) && cfg.workers == 1 && IsRun(cfg, Start(cfg), acts) && i < cfg.chans
    ensures InOrder(cfg, After(cfg, Start(cfg), acts), i)
  {
    var s := Start(cfg);
    forall k | 0 <= k < cfg.chans ensures InOrder(cfg, s, k) {
      assert Waiting(s, k) == [] && Filter(s.accepted, AtQueue(k)) == [];
    }
    RunKeepsOrder(cfg, s, acts);
  }

  // ---------------------------------------------------------------- conservation

  /** Whatever the number of workers, e was routed or still waits, once for each time it was accepted. */
  ghost predicate Balanced(cfg: Config, s: State, e: Event) {
    && Tagged(cfg, s) && e.queue < cfg.chans
    && multiset(s.accepted)[e] == multiset(s.routed)[e] + multiset(Waiting(s, e.queue))[e]
  }

  lemma RemovedCount(es: seq<Event>, rest: seq<Event>, j: nat, e: Event)
    requires j < |es|
    ensures multiset(Removed(es, j) + rest)[e] + (if es[j] == e then 1 else 0) == multiset(es + rest)[e]
  {
    assert es == es[..j] + [es[j]] + es[j + 1..];
    assert es + rest == es[..j] + [es[j]] + es[j + 1..] + rest;
  }

  lemma StepKeepsBalance(cfg: Config, s: State, a: Act, e: Event)
    requires Balanced(cfg, s, e) && Enabled(cfg, s, a)
    ensures Balanced(cfg, Step(cfg, s, a), e)
  {
    StepKeepsTags(cfg, s, a);
    hide Choose;
    match a
    case Receive(_, _, _, _) =>
      ReceiveKeepsBalance(cfg, s, a, e);
    case Take(x) =>
      TakeKeepsWaiting(s, x, e.queue);
    case Route(x, j) =>
      assert Waiting(s, x)[j] == s.hands[x][j];
      if x == e.queue { RemovedCount(s.hands[x], s.queues[x], j, e); }
  }

  lemma ReceiveKeepsBalance(cfg: Config, s: State, a: Act, e: Event)
    requires Balanced(cfg, s, e) && a.Receive?
    ensures var s' := Step(cfg, s, a);
            multiset(s'.accepted)[e] == multiset(s'.routed)[e] + multiset(Waiting(s', e.queue))[e]
  {
    var q := Choose(cfg, s, a.conn, a.hdr);
    var s', x := Step(cfg, s, a), Event(a.conn, a.hdr, a.payload, q);
    ReceiveMoves(cfg, s, a, e.queue);
    hide Choose;
    hide Step;
    hide Tagged;
    var w := Waiting(s, e.queue);
    hide Waiting;
    CountSnoc(s.accepted, x, e);
    CountSnoc(w, x, e);
  }

  lemma CountSnoc(es: seq<Event>, x: Event, e: Event)
    ensures multiset(es + [x])[e] == multiset(es)[e] + if x == e then 1 else 0
  {
  }

  /** The event joins the accepted ones and its queue, or nothing changes. */
  lemma ReceiveMoves(cfg: Config, s: State, a: Act, k: nat)
    requires Sized(cfg, s) && a.Receive? && k < cfg.chans
    ensures var s', q := Step(cfg, s, a), Choose(cfg, s, a.conn, a.hdr);
            var x := Event(a.conn, a.hdr, a.payload, q);
            && s'.routed == s.routed
            && ((s'.accepted == s.accepted && Waiting(s', k) == Waiting(s, k)) ||
                (s'.accepted == s.accepted + [x] && Waiting(s', k) == Waiting(s, k) + if k == q then [x] else []))
  {
    var q := Choose(cfg, s, a.conn, a.hdr);
    hide Choose;
    var x := Event(a.conn, a.hdr, a.payload, q);
    assert s.hands[q] + (s.queues[q] + [x]) == s.hands[q] + s.queues[q] + [x];
    assert Waiting(s, k) + [] == Waiting(s, k);
  }

  lemma {:induction false} RunKeepsBalance(cfg: Config, s: State, acts: seq<Act>, e: Event)
    requires Balanced(cfg, s, e) && IsRun(cfg, s, acts)
    ensures Balanced(cfg, After(cfg, s, acts), e)
    decreases |acts|
  {
    hide Balanced;
    hide Step;
    if acts != [] {
      StepKeepsBalance(cfg, s, acts[0], e);
      RunKeepsBalance(cfg, Step(cfg, s, acts[0]), acts[1..], e);
    }
  }

  /**
   With any number of workers and any strategy: an accepted event is routed at most once, never
   lost, and nothing is routed that was not accepted. Once nothing waits, it was routed exactly once.
   */
  lemma RoutedOncePerAcceptance(cfg: Config, acts: seq<Act>, e: Event)
    requires Runnable(cfg) && IsRun(cfg, Start(cfg), acts) && e.queue < cfg.chans
    ensures var s := After(cfg, Start(cfg), acts);
            && Sized(cfg, s)
            && multiset(s.accepted)[e] == multiset(s.routed)[e] + multiset(Waiting(s, e.queue))[e]
            && (Waiting(s, e.queue) == [] ==> multiset(s.routed)[e] == multiset(s.accepted)[e])
  {
    var s := Start(cfg);
    assert forall k :: 0 <= k < cfg.chans ==> Waiting(s, k) == [];
    RunKeepsBalance(cfg, s, acts, e);
  }

  // ---------------------------------------------------------------- order per key

  /** The queue of an event under a strategy that looks only at the event. */
  function Home(cfg: Config, conn: Conn, hdr: IHeader): (q: nat)
    requires Runnable(cfg) && !cfg.strategy.ByTurn?
    ensures q < cfg.chans
  {
    Choose(cfg, State([], [], 0, [], []), conn, hdr)
  }

  /** Every event on record is in its home queue. */
  ghost predicate AtHome(cfg: Config, s: State)
    requires Runnable(cfg) && !cfg.strategy.ByTurn?
  {
    && (forall k :: 0 <= k < |s.accepted| ==> s.accepted[k].queue == Home(cfg, s.accepted[k].conn, s.accepted[k].hdr))
    && (forall k :: 0 <= k < |s.routed| ==> s.routed[k].queue == Home(cfg, s.routed[k].conn, s.routed[k].hdr))
    && (forall i, k :: 0 <= i < |s.queues| && 0 <= k < |s.queues[i]| ==>
       s.queues[i][k].queue == Home(cfg, s.queues[i][k].conn, s.queues[i][k].hdr))
    && (forall i, k :: 0 <= i < |s.hands| && 0 <= k < |s.hands[i]| ==>
       s.hands[i][k].queue == Home(cfg, s.hands[i][k].conn, s.hands[i][k].hdr))
  }

  lemma StepKeepsHome(cfg: Config, s: State, a: Act)
    requires !cfg.strategy.ByTurn? && Enabled(cfg, s, a) && AtHome(cfg, s)
    ensures AtHome(cfg, Step(cfg, s, a))
  {
    if a.Receive? { assert Choose(cfg, s, a.conn, a.hdr) == Home(cfg, a.conn, a.hdr); }
    hide Home;
    hide Choose;
    hide Accepts;
  }

  lemma {:induction false} RunKeepsHome(cfg: Config, s: State, acts: seq<Act>)
    requires Runnable(cfg) && !cfg.strategy.ByTurn? && IsRun(cfg, s, acts) && AtHome(cfg, s)
    ensures AtHome(cfg, After(cfg, s, acts))
    decreases |acts|
  {
    hide AtHome;
    hide Step;
    if acts != [] {
      StepKeepsHome(cfg, s, acts[0]);
      RunKeepsHome(cfg, Step(cfg, s, acts[0]), acts[1..]);
    }
  }

  /** Of the events p picks out: those routed, then those waiting in queue i, are those accepted. */
  ghost predicate InArrivalOrder(s: State, p: Event -> bool, i: nat)
    requires i < |s.hands| && i < |s.queues|
  {
    Filter(s.accepted, p) == Filter(s.routed, p) + Filter(Waiting(s, i), p)
  }

  /**
   One worker per channel and a strategy that looks only at the event: any class of events that
   share a queue is routed in arrival order, in every run.
   */
  lemma ClassOrder(cfg: Config, acts: seq<Act>, p: Event -> bool, i: nat)
    requires Runnable(cfg) && cfg.workers == 1 && !cfg.strategy.ByTurn? && IsRun(cfg, Start(cfg), acts) && i < cfg.chans
    requires forall e: Event :: p(e) && e.queue == Home(cfg, e.conn, e.hdr) ==> e.queue == i
    ensures Sized(cfg, After(cfg, Start(cfg), acts)) && InArrivalOrder(After(cfg, Start(cfg), acts), p, i)
  {
    QueuesAreFifo(cfg, acts, i);
    RunKeepsHome(cfg, Start(cfg), acts);
    var s := After(cfg, Start(cfg), acts);
    hide After;
    hide IsRun;
    hide Filter;
    hide Home;
    FilterTwice(s.accepted, p, AtQueue(i));
    FilterTwice(s.routed, p, AtQueue(i));
    FilterAppend(Filter(s.routed, AtQueue(i)), Waiting(s, i), p);
  }

  function FromConn(id: string): (p: Event -> bool) { (e: Event) => e.conn.id == id }
  function Between(s: u32, t: u32): (p: Event -> bool) { (e: Event) => e.hdr.Source() == s && e.hdr.Target() == t }
  function OfSubProto(sub: byte): (p: Event -> bool) { (e: Event) => e.hdr.SubProto() == sub }

  /** Connection hashing: the events of each connection are routed in arrival order. */
  lemma ConnOrder(cfg: Config, acts: seq<Act>, c: Conn, hdr: IHeader)
    requires Runnable(cfg) && cfg.workers == 1 && cfg.strategy.ByConn? && IsRun(cfg, Start(cfg), acts)
    ensures var s, i := After(cfg, Start(cfg), acts), Home(cfg, c, hdr);
            && Sized(cfg, s) && InArrivalOrder(s, FromConn(c.id), i)
            && Filter(s.routed, FromConn(c.id)) <= Filter(s.accepted, FromConn(c.id))
  {
    ClassOrder(cfg, acts, FromConn(c.id), Home(cfg, c, hdr));
  }

  /** Source/target hashing: the events between each pair of nodes are routed in arrival order. */
  lemma PairOrder(cfg: Config, acts: seq<Act>, c: Conn, hdr: IHeader)
    requires Runnable(cfg) && cfg.workers == 1 && cfg.strategy.BySourceTarget? && IsRun(cfg, Start(cfg), acts)
    ensures var s, i := After(cfg, Start(cfg), acts), Home(cfg, c, hdr);
            var p := Between(hdr.Source(), hdr.Target());
            Sized(cfg, s) && InArrivalOrder(s, p, i) && Filter(s.routed, p) <= Filter(s.accepted, p)
  {
    ClassOrder(cfg, acts, Between(hdr.Source(), hdr.Target()), Home(cfg, c, hdr));
  }

  /** Sub-protocol sharding: the events of each sub-protocol are routed in arrival order. */
  lemma SubProtoOrder(cfg: Config, acts: seq<Act>, c: Conn, hdr: IHeader)
    requires Runnable(cfg) && cfg.workers == 1 && cfg.strategy.BySubProto? && IsRun(cfg, Start(cfg), acts)
    ensures var s, i := After(cfg, Start(cfg), acts), Home(cfg, c, hdr);
            var p := OfSubProto(hdr.SubProto());
            Sized(cfg, s) && InArrivalOrder(s, p, i) && Filter(s.routed, p) <= Filter(s.accepted, p)
  {
    ClassOrder(cfg, acts, OfSubProto(hdr.SubProto()), Home(cfg, c, hdr));
  }

  // ---------------------------------------------------------------- what breaks the order

  lemma {:induction false} Extend(cfg: Config, s: State, acts: seq<Act>, a: Act)
    requires IsRun(cfg, s, acts) && Enabled(cfg, After(cfg, s, acts), a)
    ensures IsRun(cfg, s, acts + [a]) && After(cfg, s, acts + [a]) == Step(cfg, After(cfg, s, acts), a)
    decreases |acts|
  {
    hide Step;
    hide Enabled;
    if acts == [] {
      assert acts + [a] == [a] && [a][1..] == [];
    } else {
      Extend(cfg, Step(cfg, s, acts[0]), acts[1..], a);
      assert (acts + [a])[0] == acts[0] && (acts + [a])[1..] == acts[1..] + [a];
    }
  }

  /** An event handed to a waiting worker of queue i, which takes it. */
  lemma HandOver(cfg: Config, acts: seq<Act>, conn: Conn, hdr: IHeader, payload: seq<byte>, i: nat)
      returns (more: seq<Act>)
    requires IsRun(cfg, Start(cfg), acts)
    requires var s := After(cfg, Start(cfg), acts);
             && Sized(cfg, s) && i == Choose(cfg, s, conn, hdr) && s.queues[i] == [] && |s.hands[i]| < cfg.workers
    ensures IsRun(cfg, Start(cfg), more)
    ensures var s, s', e := After(cfg, Start(cfg), acts), After(cfg, Start(cfg), more), Event(conn, hdr, payload, i);
            && s'.queues == s.queues && s'.hands == s.hands[i := s.hands[i] + [e]]
            && s'.accepted == s.accepted + [e] && s'.routed == s.routed
            && s'.counter == if cfg.strategy.ByTurn? && cfg.chans > 1 then Wrapped(s.counter, 1) else s.counter
  {
    hide After;
    hide IsRun;
    hide Start;
    hide Choose;
    var s := After(cfg, Start(cfg), acts);
    var a := Receive(conn, hdr, payload, true);
    Extend(cfg, Start(cfg), acts, a);
    more := acts + [a];
    var s1 := After(cfg, Start(cfg), more);
    var e := Event(conn, hdr, payload, i);
    assert s.queues[i] + [e] == [e];
    assert s1.queues == s.queues[i := [e]] && s1.hands == s.hands;
    Extend(cfg, Start(cfg), more, Take(i));
    more := more + [Take(i)];
    assert [e][1..] == [];
    assert s1.queues[i := []] == s.queues;
  }

  /** Each connection's events are routed in arrival order, in every run. */
  ghost predicate KeepsConnOrder(cfg: Config) {
    forall acts, id: string | IsRun(cfg, Start(cfg), acts) ::
      var s := After(cfg, Start(cfg), acts);
      Filter(s.routed, FromConn(id)) <= Filter(s.accepted, FromConn(id))
  }

  lemma Overtaken(e: Event, e': Event, id: string)
    requires e.conn.id == e'.conn.id == id && e != e'
    ensures !(Filter([e'], FromConn(id)) <= Filter([e, e'], FromConn(id)))
  {
    var p := FromConn(id);
    assert [] + [e'] == [e'] && [] + [e] == [e] && [e] + [e'] == [e, e'];
    FilterSnoc([], e', p);
    FilterSnoc([], e, p);
    FilterSnoc([e], e', p);
    assert Filter([e'], p)[0] != Filter([e, e'], p)[0];
  }

  /** Two workers on a channel, or turns over two channels, let a later event overtake. */
  lemma OvertakingRun(cfg: Config) returns (acts: seq<Act>, e: Event, e': Event)
    requires Runnable(cfg) && (if cfg.strategy.ByTurn? then cfg.chans > 1 || cfg.workers > 1 else cfg.workers > 1)
    ensures IsRun(cfg, Start(cfg), acts) && e.conn == e'.conn && e != e'
    ensures After(cfg, Start(cfg), acts).accepted == [e, e'] && After(cfg, Start(cfg), acts).routed == [e']
  {
    var conn, hdr := Conn(0, "c"), Tcp(ZERO_HEADER);
    var s0 := Start(cfg);
    assert IsRun(cfg, s0, []) && After(cfg, s0, []) == s0;
    var i := Choose(cfg, s0, conn, hdr);
    acts := HandOver(cfg, [], conn, hdr, [0], i);
    var s1 := After(cfg, s0, acts);
    e := Event(conn, hdr, [0], i);
    var i' := Choose(cfg, s1, conn, hdr);
    SecondChoice(cfg, s1.counter, i, i');
    hide After;
    hide IsRun;
    hide Choose;
    acts := HandOver(cfg, acts, conn, hdr, [1], i');
    var s2 := After(cfg, s0, acts);
    e' := Event(conn, hdr, [1], i');
    var j := if i' == i then 1 else 0;
    assert s1.hands[i] == [] + [e] == [e];
    assert s2.hands[i'][j] == e';
    assert s1.accepted == [e] && s2.accepted == [e] + [e'] == [e, e'];
    Extend(cfg, s0, acts, Route(i', j));
    acts := acts + [Route(i', j)];
    assert [] + [e'] == [e'];
  }

  lemma SecondChoice(cfg: Config, counter: u64, i: nat, i': nat)
    requires Runnable(cfg)
    requires cfg.strategy.ByTurn? && cfg.chans > 1 ==> counter == Wrapped(0, 1)
    requires i == Choose(cfg, State([], [], 0, [], []), Conn(0, "c"), Tcp(ZERO_HEADER))
    requires i' == Choose(cfg, State([], [], counter, [], []), Conn(0, "c"), Tcp(ZERO_HEADER))
    ensures cfg.strategy.ByTurn? && cfg.chans > 1 ==> i == 0 && i' == 1
    ensures !(cfg.strategy.ByTurn? && cfg.chans > 1) ==> i' == i
  {
    if cfg.strategy.ByTurn? && cfg.chans > 1 {
      Quotient(0, cfg.chans, 0, 0);
      Quotient(1, cfg.chans, 0, 1);
    }
  }

  /** Connection hashing keeps every connection in order exactly when channels have a single worker. */
  lemma ConnOrderIff(cfg: Config)
    requires Runnable(cfg) && cfg.strategy.ByConn?
    ensures KeepsConnOrder(cfg) <==> cfg.workers == 1
  {
    if cfg.workers == 1 {
      forall acts, id: string | IsRun(cfg, Start(cfg), acts)
        ensures var s := After(cfg, Start(cfg), acts);
                Filter(s.routed, FromConn(id)) <= Filter(s.accepted, FromConn(id))
      {
        ConnOrder(cfg, acts, Conn(0, id), Tcp(ZERO_HEADER));
      }
    } else {
      var acts, e, e' := OvertakingRun(cfg);
      Overtaken(e, e', e.conn.id);
    }
  }

  /** Taking turns keeps every connection in order exactly when there is one worker in all. */
  lemma TurnOrderIff(cfg: Config)
    requires Runnable(cfg) && cfg.strategy.ByTurn?
    ensures KeepsConnOrder(cfg) <==> cfg.workers == 1 && cfg.chans == 1
  {
    if cfg.workers == 1 && cfg.chans == 1 {
      forall acts, id: string | IsRun(cfg, Start(cfg), acts)
        ensures var s := After(cfg, Start(cfg), acts);
                Filter(s.routed, FromConn(id)) <= Filter(s.accepted, FromConn(id))
      {
        SingleQueueOrder(cfg, acts, id);
      }
    } else {
      var acts, e, e' := OvertakingRun(cfg);
      Overtaken(e, e', e.conn.id);
    }
  }

  lemma SingleQueueOrder(cfg: Config, acts: seq<Act>, id: string)
    requires Runnable(cfg) && cfg.workers == 1 && cfg.chans == 1 && IsRun(cfg, Start(cfg), acts)
    ensures var s := After(cfg, Start(cfg), acts); Filter(s.routed, FromConn(id)) <= Filter(s.accepted, FromConn(id))
  {
    QueuesAreFifo(cfg, acts, 0);
    AllAtZero(cfg, Start(cfg), acts);
    var s := After(cfg, Start(cfg), acts);
    hide After;
    hide IsRun;
    hide Filter;
    FilterTwice(s.accepted, FromConn(id), AtQueue(0));
    FilterTwice(s.routed, FromConn(id), AtQueue(0));
    FilterAppend(Filter(s.routed, AtQueue(0)), Waiting(s, 0), FromConn(id));
  }

  lemma {:induction false} AllAtZero(cfg: Config, s: State, acts: seq<Act>)
    requires cfg.chans == 1 && IsRun(cfg, s, acts) && Tagged(cfg, s)
    requires (forall e <- s.accepted :: e.queue == 0) && (forall e <- s.routed :: e.queue == 0)
    ensures var s' := After(cfg, s, acts);
            (forall e <- s'.accepted :: e.queue == 0) && (forall e <- s'.routed :: e.queue == 0)
    decreases |acts|
  {
    if acts != [] {
      StepKeepsTags(cfg, s, acts[0]);
      if acts[0].Route? { assert Waiting(s, acts[0].i)[acts[0].j].queue == 0; }
      hide Tagged;
      AllAtZero(cfg, Step(cfg, s, acts[0]), acts[1..]);
    }
  }

  // ---------------------------------------------------------------- the dispatcher as an object

  /** The channels and their workers; each method is one step of the state machine. */
  class Dispatcher {
    const cfg: Config
    const turns: RoundRobin
    var queues: seq<seq<Event>>
    var hands: seq<seq<Event>>
    ghost var accepted: seq<Event>
    ghost var routed: seq<Event>

    ghost function View(): (s: State)
      reads this, turns
    {
      State(queues, hands, turns.counter, accepted, routed)
    }

    constructor (cfg: Config)
      requires Runnable(cfg)
      ensures this.cfg == cfg && fresh(turns) && View() == Start(cfg)
    {
      this.cfg := cfg;
      turns := new RoundRobin();
      queues, hands := seq(cfg.chans, _ => []), seq(cfg.chans, _ => []);
      accepted, routed := [], [];
    }

    method SelectQueue(conn: Conn, hdr: IHeader) returns (i: nat)
      requires Sized(cfg, View())
      modifies turns
      ensures i == Choose(cfg, old(View()), conn, hdr)
      ensures turns.counter ==
              if cfg.strategy.ByTurn? && cfg.chans > 1 then Wrapped(old(turns.counter), 1) else old(turns.counter)
    {
      match cfg.strategy {
        case ByConn => i := ConnHash(cfg.hash32, Some(conn), Some(hdr), cfg.chans).value;
        case BySubProto => i := SubProtoQueue(Some(hdr), cfg.chans);
        case BySourceTarget => i := SelectBySourceTarget(cfg.hash64, Some(hdr), cfg.chans);
        case ByTurn => i := turns.SelectQueue(cfg.chans);
      }
    }

    /** OnReceive: the event enters its channel or is dropped; it never waits. */
    method OnReceive(conn: Conn, hdr: IHeader, payload: seq<byte>, parked: bool) returns (taken: bool)
      requires Sized(cfg, View())
      modifies this, turns
      ensures Sized(cfg, View()) && View() == Step(cfg, old(View()), Receive(conn, hdr, payload, parked))
      ensures var i := Choose(cfg, old(View()), conn, hdr);
              var waiting := old(queues)[i] == [] && parked && |old(hands)[i]| < cfg.workers;
              && (taken <==> |old(queues)[i]| < cfg.buffer || waiting)
              && (!taken ==> queues == old(queues))
              && (taken ==> && |queues[i]| == |old(queues)[i]| + 1 && queues == old(queues)[i := queues[i]]
                            && queues[i][..|old(queues)[i]|] == old(queues)[i]
                            && var e := queues[i][|old(queues)[i]|];
                               e.conn == conn && e.hdr == hdr && e.payload == payload)
    {
      var i := SelectQueue(conn, hdr);
      var e := Event(conn, hdr, payload, i);
      taken := |queues[i]| < cfg.buffer || (parked && queues[i] == [] && |hands[i]| < cfg.workers);
      if taken {
        queues := queues[i := queues[i] + [e]];
        accepted := accepted + [e];
      }
    }

    /** A worker of channel i receives from it. */
    method TakeEvent(i: nat)
      requires Enabled(cfg, View(), Take(i))
      modifies this
      ensures Sized(cfg, View()) && View() == Step(cfg, old(View()), Take(i))
    {
      hands := hands[i := hands[i] + [queues[i][0]]];
      queues := queues[i := queues[i][1..]];
    }

    /** A worker of channel i calls `route` with the event it holds. */
    method RouteEvent(i: nat, j: nat) returns (e: Event)
      requires Enabled(cfg, View(), Route(i, j))
      modifies this
      ensures Sized(cfg, View()) && View() == Step(cfg, old(View()), Route(i, j))
      ensures e == old(hands[i][j])
    {
      e := hands[i][j];
      hands := hands[i := Removed(hands[i], j)];
      routed := routed + [e];
    }
  }
}
