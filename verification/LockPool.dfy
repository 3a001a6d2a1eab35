/** The pool of clients: a lock that grants workers in the order of arrival, as critical
    sections of an object and as the steps of any number of threads. */
module LockPools {

  // ---- the object, on values ----

  /** `fifo`: the threads waiting, the first one first; `notified`: its condition variable
      has been signalled and it has not woken up yet. */
  datatype Lock = Lock(locked: bool, fifo: seq<nat>, notified: bool, available: seq<nat>, workers: nat)

  const CLOSED := Lock(true, [], false, [], 0)

  function Unlocked(l: Lock): Lock {
    if l.fifo == [] then l.(locked := false) else l.(notified := true)
  }

  function Range(from: nat, n: nat): (r: seq<nat>)
    ensures |r| == n && forall i :: 0 <= i < n ==> r[i] == from + i
  {
    seq(n, i requires 0 <= i => from + i)
  }

  function Added(l: Lock, n: nat): Lock {
    Unlocked(l.(available := l.available + Range(l.workers, n), workers := l.workers + n))
  }

  /** The first available worker is taken; if more are left the next thread may go on. */
  function Taken(l: Lock): Lock
    requires l.available != []
  {
    var l' := l.(available := l.available[1..]);
    if l'.available != [] then Unlocked(l') else l'
  }

  function Entered(l: Lock, t: nat): Lock {
    if l.locked then l.(fifo := l.fifo + [t]) else l.(locked := true)
  }

  function Woken(l: Lock): Lock
    requires l.fifo != []
  {
    l.(fifo := l.fifo[1..], notified := false)
  }

  class LockPool {
    var locked: bool
    var fifoLocks: seq<nat>
    var notified: bool
    var available: seq<nat>
    var threadWorkers: nat

    function View(): Lock
      reads this
    {
      Lock(locked, fifoLocks, notified, available, threadWorkers)
    }

    constructor ()
      ensures View() == CLOSED
    {
      locked, fifoLocks, notified, available, threadWorkers := true, [], false, [], 0;
    }

    /** `lock` up to the wait: the thread has the lock or waits in the queue. */
    method Enter(t: nat) returns (waits: bool)
      modifies this
      ensures View() == Entered(old(View()), t) && waits == old(locked)
    {
      waits := locked;
      if locked {
        fifoLocks := fifoLocks + [t];
      } else {
        locked := true;
      }
    }

    /** `lock` after the wait: the front of the queue leaves it. */
    method WakeUp() returns (t: nat)
      requires fifoLocks != []
      modifies this
      ensures View() == Woken(old(View())) && t == old(fifoLocks[0])
    {
      t := fifoLocks[0];
      fifoLocks := fifoLocks[1..];
      notified := false;
    }

    method Unlock()
      modifies this
      ensures View() == Unlocked(old(View()))
    {
      if fifoLocks == [] {
        locked := false;
      } else {
        notified := true;
      }
    }

    method AddWorkers(n: nat)
      modifies this
      ensures View() == Added(old(View()), n)
      ensures threadWorkers == old(threadWorkers) + n && available == old(available) + Range(old(threadWorkers), n)
    {
      var from := threadWorkers;
      for i := 0 to n
        invariant View() == old(View()).(available := old(available) + Range(from, i))
      {
        assert Range(from, i + 1) == Range(from, i) + [from + i];
        available := available + [from + i];
      }
      threadWorkers := threadWorkers + n;
      Unlock();
    }

    /** `acquireWorker` after `lock`. */
    method TakeWorker() returns (worker: nat)
      requires available != []
      modifies this
      ensures View() == Taken(old(View())) && worker == old(available[0])
    {
      worker := available[0];
      available := available[1..];
      if available != [] {
        Unlock();
      }
    }

    method ReleaseWorker(worker: nat)
      modifies this
      ensures View() == Unlocked(old(View()).(available := [worker] + old(available)))
    {
      available := [worker] + available;
      Unlock();
    }
  }

  // ---- the pool and its threads ----

  /** `held`: which thread has which client; `clients`: how many there are, workers or not
      yet; `growing`: workers about to be added; `arrivals` and `grants`: the threads that
      asked for a client and those that got one, in order; `broken`: somebody took a worker
      when none was available. */
  datatype Pool = Pool(lock: Lock, held: map<nat, nat>, clients: nat, growing: nat, maxClients: nat, maxGrowth: nat,
                       arrivals: seq<nat>, grants: seq<nat>, broken: bool)

  datatype Step =
    | Init(n: nat)
    | Arrive(t: nat)
    | Wake
    | Release(worker: nat)
    | GrowBegin
    | GrowEnd

  function Start(maxClients: nat, maxGrowth: nat): Pool {
    Pool(CLOSED, map[], 0, 0, maxClients, maxGrowth, [], [], false)
  }

  function Min(a: nat, b: nat): nat {
    if a < b then a else b
  }

  /** How many clients `autoGrow` adds. */
  function GrowBy(p: Pool): nat {
    if p.clients <= p.maxClients then Min(p.maxClients - p.clients, Min(p.maxGrowth, p.clients)) else 0
  }

  /** A waiting thread goes on only when it has been notified, only held workers are
      released, and one thread grows the pool at a time. */
  predicate Enabled(p: Pool, s: Step) {
    match s
    case Init(n) => p.clients == 0 && p.growing == 0 && 1 <= n <= p.maxClients
    case Arrive(t) => t !in p.arrivals
    case Wake => p.lock.notified && p.lock.fifo != []
    case Release(w) => w in p.held
    case GrowBegin => p.growing == 0 && p.clients < p.maxClients && p.lock.locked
    case GrowEnd => p.growing > 0
  }

  function Grant(p: Pool, t: nat): Pool {
    if p.lock.available == [] then p.(broken := true)
    else
      var w := p.lock.available[0];
      p.(lock := Taken(p.lock), held := p.held[w := t], grants := p.grants + [t])
  }

  function Do(p: Pool, s: Step): Pool
    requires Enabled(p, s)
  {
    match s
    case Init(n) => p.(clients := n, lock := Added(p.lock, n))
    case Arrive(t) =>
      var p' := p.(lock := Entered(p.lock, t), arrivals := p.arrivals + [t]);
      if p.lock.locked then p' else Grant(p', t)
    case Wake => Grant(p.(lock := Woken(p.lock)), p.lock.fifo[0])
    case Release(w) =>
      p.(held := p.held - {w}, lock := Unlocked(p.lock.(available := [w] + p.lock.available)))
    case GrowBegin =>
      var n := GrowBy(p);
      if n == 0 then p.(lock := Added(p.lock, 0)) else p.(clients := p.clients + n, growing := n)
    case GrowEnd => p.(growing := 0, lock := Added(p.lock, p.growing))
  }

  /** The lock: it is open only if a worker is available and nobody waits; if workers are
      available and threads wait, the first thread has been notified. */
  predicate LockInv(l: Lock) {
    && (!l.locked ==> l.fifo == [] && l.available != [])
    && (l.notified ==> l.fifo != [] && l.available != [])
    && (l.locked && l.available != [] ==> l.notified)
  }

  /** The workers: each of them is either available, once, or held, by one thread. */
  predicate Partition(l: Lock, held: map<nat, nat>) {
    && (forall i, j :: 0 <= i < j < |l.available| ==> l.available[i] != l.available[j])
    && (forall i :: 0 <= i < |l.available| ==> l.available[i] < l.workers && l.available[i] !in held)
    && (forall w :: w in held ==> w < l.workers)
    && (forall w :: 0 <= w < l.workers ==> w in held || w in l.available)
  }

  predicate Inv(p: Pool) {
    && !p.broken
    && LockInv(p.lock)
    && Partition(p.lock, p.held)
    && p.arrivals == p.grants + p.lock.fifo
    && p.lock.workers + p.growing == p.clients <= p.maxClients
    && (p.clients == 0 ==> p.lock.workers == 0)
  }

  lemma StartInv(maxClients: nat, maxGrowth: nat)
    ensures Inv(Start(maxClients, maxGrowth))
  {
  }

  lemma TakenInv(l: Lock, held: map<nat, nat>, t: nat)
    requires l.available != [] && Partition(l, held)
    ensures var w := l.available[0];
            w !in held && w < l.workers && Partition(Taken(l), held[w := t])
  {
    var w, l' := l.available[0], Taken(l);
    assert forall i :: 0 <= i < |l'.available| ==> l'.available[i] == l.available[i + 1];
    forall x | 0 <= x < l'.workers ensures x in held[w := t] || x in l'.available {
      if x !in held && x != w {
        var i :| 0 <= i < |l.available| && l.available[i] == x;
        assert l'.available[i - 1] == x;
      }
    }
  }

  lemma AddedInv(l: Lock, held: map<nat, nat>, n: nat)
    requires Partition(l, held)
    ensures Partition(Added(l, n), held)
  {
    var l' := Added(l, n);
    var more := Range(l.workers, n);
    forall x | 0 <= x < l'.workers ensures x in held || x in l'.available {
      if x >= l.workers {
        assert more[x - l.workers] == x;
        assert l'.available[|l.available| + (x - l.workers)] == x;
      }
    }
  }

  lemma ReleasedInv(l: Lock, held: map<nat, nat>, w: nat)
    requires Partition(l, held) && w in held
    ensures Partition(Unlocked(l.(available := [w] + l.available)), held - {w})
  {
    var l' := Unlocked(l.(available := [w] + l.available));
    forall x | 0 <= x < l'.workers ensures x in held - {w} || x in l'.available {
      if x == w {
        assert l'.available[0] == w;
      } else if x !in held {
        var i :| 0 <= i < |l.available| && l.available[i] == x;
        assert l'.available[i + 1] == x;
      }
    }
  }

  /** `n` more clients are within every limit. */
  predicate MayGrowBy(p: Pool, n: nat) {
    p.clients + n <= p.maxClients && n <= p.maxGrowth && n <= p.clients
  }

  /** Growing adds as many clients as the limits allow, and at most doubles their number;
      their workers are added at its end. */
  lemma GrowsByMost(p: Pool)
    requires Enabled(p, GrowBegin)
    ensures var p' := Do(p, GrowBegin);
            && p'.clients >= p.clients && MayGrowBy(p, p'.clients - p.clients)
            && (forall n :: MayGrowBy(p, n) ==> p.clients + n <= p'.clients)
            && p'.growing == p'.clients - p.clients && p'.lock.workers == p.lock.workers
            && (p'.growing > 0 ==> Enabled(p', GrowEnd) && Do(p', GrowEnd).lock.workers == p.lock.workers + p'.growing)
  {
  }

  /** Growing adds a worker if there is one already and growth is allowed at all. */
  lemma GrowByPositive(p: Pool)
    requires p.clients < p.maxClients
    ensures GrowBy(p) > 0 <==> p.clients > 0 && p.maxGrowth > 0
  {
  }

  /** Growing keeps the invariant if and only if something is added, unless workers are
      available anyway. */
  lemma GrowKeepsIff(p: Pool)
    requires Inv(p) && Enabled(p, GrowBegin)
    ensures Inv(Do(p, GrowBegin)) <==> GrowBy(p) > 0 || p.lock.available != []
  {
    if GrowBy(p) == 0 {
      assert Range(p.lock.workers, 0) == [];
      assert p.lock.available + [] == p.lock.available;
    }
  }

  /** Somebody can take a worker when none is available. */
  ghost predicate CanBreak(p: Pool) {
    exists s: Step :: Enabled(p, s) && Do(p, s).broken
  }

  lemma ArriveBreaks(p: Pool, t: nat)
    requires !p.lock.locked && p.lock.available == [] && t !in p.arrivals
    ensures CanBreak(p)
  {
    assert Enabled(p, Arrive(t)) && Do(p, Arrive(t)).broken;
  }

  lemma WakeBreaks(p: Pool)
    requires p.lock.notified && p.lock.fifo != [] && p.lock.available == []
    ensures CanBreak(p)
  {
    assert Enabled(p, Wake) && Do(p, Wake).broken;
  }

  lemma {:induction false} SomebodyElse(ts: seq<nat>) returns (t: nat)
    ensures forall u <- ts :: u < t
  {
    t := 0;
    if ts != [] {
      var last := ts[|ts| - 1];
      t := SomebodyElse(ts[..|ts| - 1]);
      t := if last < t then t else last + 1;
      assert ts == ts[..|ts| - 1] + [last];
    }
  }

  /** Growing lets somebody take a worker that is not there if and only if nothing is added
      and no worker is available. */
  lemma GrowBreaksIff(p: Pool)
    requires Inv(p) && Enabled(p, GrowBegin)
    ensures CanBreak(Do(p, GrowBegin)) <==> GrowBy(p) == 0 && p.lock.available == []
  {
    var p' := Do(p, GrowBegin);
    GrowKeepsIff(p);
    if GrowBy(p) == 0 && p.lock.available == [] {
      assert Range(p.lock.workers, 0) == [];
      if p.lock.fifo == [] {
        var t := SomebodyElse(p.arrivals);
        ArriveBreaks(p', t);
      } else {
        WakeBreaks(p');
      }
    } else {
      NoneBreaks(p');
    }
  }

  lemma NoneBreaks(p: Pool)
    requires Inv(p)
    ensures !CanBreak(p)
  {
  }

  /** Every step keeps the invariant, provided that the pool does not grow by nothing while
      no worker is available. */
  lemma StepInv(p: Pool, s: Step)
    requires Inv(p) && Enabled(p, s) && (s.GrowBegin? ==> GrowBy(p) > 0 || p.lock.available != [])
    ensures Inv(Do(p, s))
  {
    if s.Init? {
      AddedInv(p.lock, p.held, s.n);
    } else if s.Arrive? {
      ArriveInv(p, s.t);
    } else if s.Wake? {
      WakeInv(p);
    } else if s.Release? {
      ReleasedInv(p.lock, p.held, s.worker);
    } else if s.GrowBegin? {
      GrowKeepsIff(p);
    } else {
      AddedInv(p.lock, p.held, p.growing);
    }
  }

  lemma ArriveInv(p: Pool, t: nat)
    requires Inv(p) && Enabled(p, Arrive(t))
    ensures Inv(Do(p, Arrive(t)))
  {
    if !p.lock.locked {
      TakenInv(Entered(p.lock, t), p.held, t);
      assert p.grants + [t] + [] == p.grants + [] + [t];
    }
  }

  lemma WakeInv(p: Pool)
    requires Inv(p) && Enabled(p, Wake)
    ensures Inv(Do(p, Wake))
  {
    var t := p.lock.fifo[0];
    TakenInv(Woken(p.lock), p.held, t);
    assert p.grants + p.lock.fifo == p.grants + [t] + p.lock.fifo[1..];
  }

  /** A run: each step is enabled when it is taken. */
  predicate IsRun(p: Pool, steps: seq<Step>)
    decreases |steps|
  {
    steps == [] || (Enabled(p, steps[0]) && IsRun(Do(p, steps[0]), steps[1..]))
  }

  function After(p: Pool, steps: seq<Step>): Pool
    requires IsRun(p, steps)
    decreases |steps|
  {
    if steps == [] then p else After(Do(p, steps[0]), steps[1..])
  }

  /** Whenever the pool grows, something is added or a worker is available. */
  predicate GrowsSomething(p: Pool, steps: seq<Step>)
    requires IsRun(p, steps)
    decreases |steps|
  {
    steps == [] ||
    ((steps[0].GrowBegin? ==> GrowBy(p) > 0 || p.lock.available != []) && GrowsSomething(Do(p, steps[0]), steps[1..]))
  }

  /** Safety of every run. */
  lemma {:induction false} RunInv(p: Pool, steps: seq<Step>)
    requires Inv(p) && IsRun(p, steps) && GrowsSomething(p, steps)
    ensures Inv(After(p, steps))
    decreases |steps|
  {
    if steps != [] {
      StepInv(p, steps[0]);
      RunInv(Do(p, steps[0]), steps[1..]);
    }
  }

  /** What the invariant means for the threads: in every run clients are granted strictly in
      the order of arrival, every client is used by at most one thread and exists, and a
      thread that waits while a client is available is not forgotten. */
  lemma PoolSafety(maxClients: nat, maxGrowth: nat, steps: seq<Step>)
    requires IsRun(Start(maxClients, maxGrowth), steps) && GrowsSomething(Start(maxClients, maxGrowth), steps)
    ensures var p := After(Start(maxClients, maxGrowth), steps);
            && !p.broken
            && p.grants <= p.arrivals
            && (forall w :: w in p.held ==> w < p.clients && w !in p.lock.available)
            && (p.lock.available != [] && p.lock.fifo != [] ==> p.lock.notified)
            && p.clients <= maxClients
  {
    StartInv(maxClients, maxGrowth);
    RunInv(Start(maxClients, maxGrowth), steps);
    MaxStays(Start(maxClients, maxGrowth), steps);
    var p := After(Start(maxClients, maxGrowth), steps);
    assert forall w <- p.lock.available :: w !in p.held;
  }

  lemma {:induction false} MaxStays(p: Pool, steps: seq<Step>)
    requires IsRun(p, steps)
    ensures After(p, steps).maxClients == p.maxClients
    decreases |steps|
  {
    if steps != [] {
      MaxStays(Do(p, steps[0]), steps[1..]);
    }
  }

  // ---- which pools can break ----

  /** Nobody grows the pool before it has been initialised. */
  predicate GrowsAfterInit(steps: seq<Step>, initialised: bool) {
    steps == [] ||
    ((steps[0].GrowBegin? ==> initialised) && GrowsAfterInit(steps[1..], initialised || steps[0].Init?))
  }

  lemma ClientsStay(p: Pool, s: Step)
    requires Enabled(p, s)
    ensures Do(p, s).clients >= p.clients && (s.Init? ==> Do(p, s).clients > 0)
            && Do(p, s).maxGrowth == p.maxGrowth && Do(p, s).maxClients == p.maxClients
  {
  }

  lemma {:induction false} GrowsMonotone(steps: seq<Step>, a: bool, b: bool)
    requires GrowsAfterInit(steps, a) && (a ==> b)
    ensures GrowsAfterInit(steps, b)
    decreases |steps|
  {
    if steps != [] {
      GrowsMonotone(steps[1..], a || steps[0].Init?, b || steps[0].Init?);
    }
  }

  /** A pool that is initialised first always grows by something, if growth is not limited
      to zero or there is no room to grow. */
  lemma {:induction false} InitialisedGrows(p: Pool, steps: seq<Step>)
    requires IsRun(p, steps) && GrowsAfterInit(steps, p.clients > 0) && (p.maxGrowth > 0 || p.maxClients <= 1)
    ensures GrowsSomething(p, steps)
    decreases |steps|
  {
    if steps != [] {
      if steps[0].GrowBegin? {
        GrowByPositive(p);
      }
      ClientsStay(p, steps[0]);
      GrowsMonotone(steps[1..], p.clients > 0 || steps[0].Init?, Do(p, steps[0]).clients > 0);
      InitialisedGrows(Do(p, steps[0]), steps[1..]);
    }
  }

  lemma {:induction false} NoRoomToGrow(p: Pool, steps: seq<Step>)
    requires IsRun(p, steps) && p.maxClients == 0
    ensures GrowsSomething(p, steps)
    decreases |steps|
  {
    if steps != [] {
      ClientsStay(p, steps[0]);
      NoRoomToGrow(Do(p, steps[0]), steps[1..]);
    }
  }

  lemma RunOne(p: Pool, s: Step, steps: seq<Step>)
    requires Enabled(p, s) && IsRun(Do(p, s), steps)
    ensures IsRun(p, [s] + steps) && After(p, [s] + steps) == After(Do(p, s), steps)
  {
    assert ([s] + steps)[1..] == steps;
  }

  /** A client asked for before the pool has been initialised makes it grow by nothing; the
      thread is woken up and finds no worker. */
  lemma GrowByNothingBreaks(maxClients: nat, maxGrowth: nat)
    requires maxClients > 0
    ensures var steps := [Arrive(1), GrowBegin, Wake];
            IsRun(Start(maxClients, maxGrowth), steps) && After(Start(maxClients, maxGrowth), steps).broken
  {
    var p0 := Start(maxClients, maxGrowth);
    var p1 := Do(p0, Arrive(1));
    assert p1.lock == Lock(true, [1], false, [], 0);
    var p2 := Do(p1, GrowBegin);
    assert GrowBy(p1) == 0;
    assert p2.lock.available == [] + Range(0, 0) == [];
    assert p2.lock.notified && p2.lock.fifo == [1];
    var p3 := Do(p2, Wake);
    assert p3.broken;
    RunOne(p2, Wake, []);
    RunOne(p1, GrowBegin, [Wake]);
    RunOne(p0, Arrive(1), [GrowBegin, Wake]);
    assert [Wake] + [] == [Wake] && [GrowBegin] + [Wake] == [GrowBegin, Wake];
    assert [Arrive(1)] + [GrowBegin, Wake] == [Arrive(1), GrowBegin, Wake];
  }

  /** So does a second thread, after initialisation with one client, if growth is limited to
      zero. */
  lemma GrowthOfZeroBreaks(maxClients: nat)
    requires maxClients >= 2
    ensures var steps := [Init(1), Arrive(1), Arrive(2), GrowBegin, Wake];
            && IsRun(Start(maxClients, 0), steps) && GrowsAfterInit(steps, false)
            && After(Start(maxClients, 0), steps).broken
  {
    var p0 := Start(maxClients, 0);
    var p2 := OneClientTaken(maxClients);
    OneWaits(p2);
    RunOne(Do(p0, Init(1)), Arrive(1), [Arrive(2), GrowBegin, Wake]);
    RunOne(p0, Init(1), [Arrive(1), Arrive(2), GrowBegin, Wake]);
    assert [Arrive(1)] + [Arrive(2), GrowBegin, Wake] == [Arrive(1), Arrive(2), GrowBegin, Wake];
    assert [Init(1)] + [Arrive(1), Arrive(2), GrowBegin, Wake] == [Init(1), Arrive(1), Arrive(2), GrowBegin, Wake];
    GrowLast();
  }

  lemma OneClientTaken(maxClients: nat) returns (p2: Pool)
    requires maxClients >= 2
    ensures var p0 := Start(maxClients, 0);
            Enabled(p0, Init(1)) && Enabled(Do(p0, Init(1)), Arrive(1)) && p2 == Do(Do(p0, Init(1)), Arrive(1))
    ensures p2.lock == Lock(true, [], false, [], 1) && p2.clients == 1 && p2.growing == 0 && p2.arrivals == [1]
    ensures p2.maxClients == maxClients && p2.maxGrowth == 0
  {
    var p1 := Do(Start(maxClients, 0), Init(1));
    assert p1.lock == Lock(false, [], false, [0], 1) by {
      assert [] + Range(0, 1) == [0];
    }
    p2 := Do(p1, Arrive(1));
  }

  lemma OneWaits(p2: Pool)
    requires p2.lock == Lock(true, [], false, [], 1) && p2.clients == 1 && p2.growing == 0 && p2.arrivals == [1]
    requires p2.maxClients >= 2 && p2.maxGrowth == 0
    ensures var steps := [Arrive(2), GrowBegin, Wake]; IsRun(p2, steps) && After(p2, steps).broken
  {
    var p3 := Do(p2, Arrive(2));
    assert p3.lock == Lock(true, [2], false, [], 1) && p3.clients == 1;
    var p4 := Do(p3, GrowBegin);
    assert p4.lock == Lock(true, [2], true, [], 1) by {
      assert [] + Range(1, 0) == [];
    }
    RunOne(p4, Wake, []);
    RunOne(p3, GrowBegin, [Wake]);
    RunOne(p2, Arrive(2), [GrowBegin, Wake]);
    assert [Wake] + [] == [Wake] && [GrowBegin] + [Wake] == [GrowBegin, Wake];
    assert [Arrive(2)] + [GrowBegin, Wake] == [Arrive(2), GrowBegin, Wake];
  }

  lemma GrowLast()
    ensures GrowsAfterInit([Init(1), Arrive(1), Arrive(2), GrowBegin, Wake], false)
  {
    var w, g, a := [Wake], [GrowBegin, Wake], [Arrive(2), GrowBegin, Wake];
    var b := [Arrive(1), Arrive(2), GrowBegin, Wake];
    assert w[1..] == [] && g[1..] == w && a[1..] == g && b[1..] == a && ([Init(1)] + b)[1..] == b;
    assert GrowsAfterInit(w, true);
    assert GrowsAfterInit(g, true);
    assert GrowsAfterInit(a, true);
    assert GrowsAfterInit(b, true);
    assert [Init(1), Arrive(1), Arrive(2), GrowBegin, Wake] == [Init(1)] + b;
  }

  /** Somebody takes a worker that is not there, in some run of a pool with these limits; if
      `initFirst`, in one in which nobody grows the pool before it is initialised. */
  ghost predicate MayBreak(maxClients: nat, maxGrowth: nat, initFirst: bool) {
    exists steps: seq<Step> ::
      && IsRun(Start(maxClients, maxGrowth), steps) && (initFirst ==> GrowsAfterInit(steps, false))
      && After(Start(maxClients, maxGrowth), steps).broken
  }

  /** Exactly which pools can break: initialised first, those with room to grow that may not
      grow; otherwise all that may have a client. */
  lemma MayBreakIff(maxClients: nat, maxGrowth: nat, initFirst: bool)
    ensures MayBreak(maxClients, maxGrowth, initFirst) <==>
            if initFirst then maxGrowth == 0 && maxClients >= 2 else maxClients > 0
  {
    var p := Start(maxClients, maxGrowth);
    if initFirst && maxGrowth == 0 && maxClients >= 2 {
      GrowthOfZeroBreaks(maxClients);
    } else if !initFirst && maxClients > 0 {
      GrowByNothingBreaks(maxClients, maxGrowth);
    } else {
      forall steps: seq<Step> | IsRun(p, steps) && (initFirst ==> GrowsAfterInit(steps, false)) ensures !After(p, steps).broken {
        if initFirst {
          InitialisedGrows(p, steps);
        } else {
          NoRoomToGrow(p, steps);
        }
        PoolSafety(maxClients, maxGrowth, steps);
      }
    }
  }
}
