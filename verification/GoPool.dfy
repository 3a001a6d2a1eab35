/** The connection pool of the Go client: its critical sections as an object, and every
    interleaving of its goroutines as a state machine. */
module GoPools {
  import opened Octets

  type Conn = nat

  /** The channel of a request, with room for one connection.  `waiter` is the goroutine
      that made the request. */
  datatype Chan = Chan(buf: Option<Conn>, closed: bool, waiter: nat)

  /** What the mutex protects.  Request keys are positions in `chans`; `tokens` is the number
      of values in the opener channel.  `broken`: a value was sent on a closed or satisfied
      channel.  `blocked`: one was sent on the opener channel when it was full, so that the
      sender had to wait, with the mutex in its hands. */
  datatype Shared = Shared(free: seq<Conn>, requests: set<nat>, chans: seq<Chan>, numOpen: int, tokens: nat,
                           closed: bool, broken: bool, blocked: bool, maxOpen: nat)

  const QUEUE_SIZE := 1000000

  // ---- the critical sections, on values ----

  function Min(a: int, b: int): int {
    if a < b then a else b
  }

  /** How many connections `maybeOpenNewConnections` asks for. */
  function CanOpen(sh: Shared): nat {
    var n := if sh.maxOpen > 0 then Min(|sh.requests|, sh.maxOpen - sh.numOpen) else |sh.requests|;
    if sh.closed || n < 0 then 0 else n
  }

  function SendTokens(sh: Shared, n: nat): Shared {
    sh.(numOpen := sh.numOpen + n, tokens := sh.tokens + n,
        broken := sh.broken || (n > 0 && sh.closed),
        blocked := sh.blocked || (n > 0 && sh.tokens + n > QUEUE_SIZE))
  }

  function MaybeOpen(sh: Shared): Shared {
    SendTokens(sh, CanOpen(sh))
  }

  /** A connection is sent to the request `k`. */
  function Satisfy(sh: Shared, k: nat, cn: Conn): Shared
    requires k < |sh.chans|
  {
    var ch := sh.chans[k];
    sh.(requests := sh.requests - {k}, chans := sh.chans[k := ch.(buf := Some(cn))],
        broken := sh.broken || ch.closed || ch.buf.Some?)
  }

  predicate Refuses(sh: Shared) {
    sh.closed || (sh.maxOpen > 0 && sh.maxOpen < sh.numOpen)
  }

  /** `putConnLocked`, with `k` for the request that the iteration over the map comes to
      first. */
  function PutLocked(sh: Shared, cn: Conn, k: nat): Shared
    requires sh.requests != {} ==> k < |sh.chans|
  {
    if Refuses(sh) then sh
    else if sh.requests != {} then Satisfy(sh, k, cn)
    else sh.(free := sh.free + [cn])
  }

  function Count(sh: Shared, n: int): Shared {
    sh.(numOpen := sh.numOpen + n)
  }

  /** The end of `quit`: the count goes down and, unless the command failed, new
      connections may be opened. */
  function AfterQuit(sh: Shared, ok: bool): Shared {
    if ok then MaybeOpen(Count(sh, -1)) else Count(sh, -1)
  }

  function NewRequest(sh: Shared, p: nat): Shared {
    sh.(requests := sh.requests + {|sh.chans|}, chans := sh.chans + [Chan(None, false, p)])
  }

  function CloseAll(sh: Shared): Shared {
    sh.(closed := true,
        chans := seq(|sh.chans|, k requires 0 <= k < |sh.chans| =>
                   if k in sh.requests then sh.chans[k].(closed := true) else sh.chans[k]))
  }

  /** One round of the cleaner's loop: an expired connection is replaced by the last one. */
  function Sweep(free: seq<Conn>, expired: Conn -> bool, i: nat): (r: (seq<Conn>, seq<Conn>))
    requires i <= |free|
    decreases |free| - i
  {
    if i == |free| then (free, [])
    else if expired(free[i]) then
      var last := |free| - 1;
      var r := Sweep(free[i := free[last]][..last], expired, i);
      (r.0, [free[i]] + r.1)
    else Sweep(free, expired, i + 1)
  }

  predicate NoneExpired(cs: seq<Conn>, expired: Conn -> bool, n: nat) {
    n <= |cs| && forall j :: 0 <= j < n ==> !expired(cs[j])
  }

  predicate AllExpired(cs: seq<Conn>, expired: Conn -> bool) {
    forall j :: 0 <= j < |cs| ==> expired(cs[j])
  }

  predicate Swept(free: seq<Conn>, expired: Conn -> bool, r: (seq<Conn>, seq<Conn>)) {
    multiset(r.0) + multiset(r.1) == multiset(free) && NoneExpired(r.0, expired, |r.0|) && AllExpired(r.1, expired)
  }

  lemma SweptOne(free: seq<Conn>, expired: Conn -> bool, i: nat, r: (seq<Conn>, seq<Conn>))
    requires i < |free| && expired(free[i]) && Swept(free[i := free[|free| - 1]][..|free| - 1], expired, r)
    ensures Swept(free, expired, (r.0, [free[i]] + r.1))
  {
    SwapDelete(free, i);
    Together(r.0, r.1, free[i := free[|free| - 1]][..|free| - 1], free[i], free);
  }

  /** Nothing is lost, and exactly the expired connections are taken out. */
  lemma {:induction false} SweepKeeps(free: seq<Conn>, expired: Conn -> bool, i: nat)
    requires NoneExpired(free, expired, i)
    ensures Swept(free, expired, Sweep(free, expired, i))
    decreases |free| - i
  {
    if i < |free| {
      if expired(free[i]) {
        var rest := free[i := free[|free| - 1]][..|free| - 1];
        SweepKeeps(rest, expired, i);
        SweptOne(free, expired, i, Sweep(rest, expired, i));
      } else {
        SweepKeeps(free, expired, i + 1);
      }
    }
  }

  lemma Together(a: seq<Conn>, b: seq<Conn>, rest: seq<Conn>, cn: Conn, free: seq<Conn>)
    requires multiset(a) + multiset(b) == multiset(rest) && multiset(rest) + multiset{cn} == multiset(free)
    ensures multiset(a) + multiset([cn] + b) == multiset(free)
  {
    assert multiset([cn] + b) == multiset{cn} + multiset(b);
    assert multiset(a) + (multiset{cn} + multiset(b)) == (multiset(a) + multiset(b)) + multiset{cn};
  }

  lemma SwapDelete(free: seq<Conn>, i: nat)
    requires i < |free|
    ensures var last := |free| - 1;
            multiset(free[i := free[last]][..last]) + multiset{free[i]} == multiset(free)
  {
    var last := |free| - 1;
    var swapped := free[i := free[last]];
    assert free == free[..last] + [free[last]];
    if i < last {
      assert free[..last] == free[..i] + [free[i]] + free[i + 1..last];
      assert swapped[..last] == free[..i] + [free[last]] + free[i + 1..last];
    } else {
      assert swapped[..last] == free[..last];
    }
  }

  // ---- the object ----

  class Client {
    var freeConns: seq<Conn>
    var connRequests: set<nat>
    var chans: seq<Chan>
    var numOpen: int
    var openerCh: nat
    var closed: bool
    var broken: bool
    var blocked: bool
    const maxOpen: nat

    function View(): Shared
      reads this
    {
      Shared(freeConns, connRequests, chans, numOpen, openerCh, closed, broken, blocked, maxOpen)
    }

    constructor (maxOpen: nat)
      ensures View() == Shared([], {}, [], 0, 0, false, false, false, maxOpen)
    {
      this.maxOpen := maxOpen;
      freeConns, connRequests, chans, numOpen, openerCh := [], {}, [], 0, 0;
      closed, broken, blocked := false, false, false;
    }

    method MaybeOpenNewConnections()
      modifies this
      ensures View() == MaybeOpen(old(View()))
    {
      if closed {
        return;
      }
      var numRequests: int := |connRequests|;
      if maxOpen > 0 {
        var numCanOpen := maxOpen - numOpen;
        if numRequests > numCanOpen {
          numRequests := numCanOpen;
        }
      }
      ghost var n := if numRequests < 0 then 0 else numRequests;
      ghost var sent: nat := 0;
      while numRequests > 0
        invariant n - sent == (if numRequests < 0 then 0 else numRequests)
        invariant View() == SendTokens(old(View()), sent) && closed == false
      {
        numOpen := numOpen + 1;
        numRequests := numRequests - 1;
        blocked := blocked || openerCh >= QUEUE_SIZE;
        openerCh := openerCh + 1;
        sent := sent + 1;
      }
    }

    method PutConnLocked(cn: Conn, k: nat) returns (ok: bool)
      requires connRequests != {} ==> k in connRequests && k < |chans|
      modifies this
      ensures View() == PutLocked(old(View()), cn, k) && ok == !Refuses(old(View()))
    {
      if closed {
        return false;
      }
      if maxOpen > 0 && maxOpen < numOpen {
        return false;
      }
      if |connRequests| > 0 {
        connRequests := connRequests - {k};
        broken := broken || chans[k].closed || chans[k].buf.Some?;
        chans := chans[k := chans[k].(buf := Some(cn))];
      } else {
        freeConns := freeConns + [cn];
      }
      return true;
    }

    /** The loop of `connectionCleaner`. */
    method TakeExpired(expired: Conn -> bool) returns (closing: seq<Conn>)
      modifies this`freeConns
      ensures freeConns == Sweep(old(freeConns), expired, 0).0 && closing == Sweep(old(freeConns), expired, 0).1
    {
      closing := [];
      var i := 0;
      while i < |freeConns|
        invariant 0 <= i <= |freeConns|
        invariant Sweep(freeConns, expired, i).0 == Sweep(old(freeConns), expired, 0).0
        invariant closing + Sweep(freeConns, expired, i).1 == Sweep(old(freeConns), expired, 0).1
        decreases |freeConns| - i
      {
        var cn := freeConns[i];
        if expired(cn) {
          closing := closing + [cn];
          var last := |freeConns| - 1;
          freeConns := freeConns[i := freeConns[last]];
          freeConns := freeConns[..last];
        } else {
          i := i + 1;
        }
      }
    }

    /** The critical section of `_conn`: a free connection if one may be used, else a
        request to wait on, else leave to open a connection. */
    method BeginConn(useFreeConn: bool, waiter: nat) returns (g: Grant)
      modifies this
      ensures old(closed) ==> g == Refused && View() == old(View())
      ensures !old(closed) && useFreeConn && old(freeConns) != [] ==>
                g == Free(old(freeConns)[0]) && View() == old(View()).(free := old(freeConns)[1..])
      ensures !old(closed) && !(useFreeConn && old(freeConns) != []) ==>
                if maxOpen > 0 && maxOpen <= old(numOpen) then
                  g == Wait(|old(chans)|) && View() == NewRequest(old(View()), waiter)
                else g == Open && View() == Count(old(View()), 1)
    {
      if closed {
        return Refused;
      }
      var numFree := |freeConns|;
      if useFreeConn && numFree > 0 {
        g := Free(freeConns[0]);
        freeConns := freeConns[1..];
        return;
      }
      if maxOpen > 0 && maxOpen <= numOpen {
        var reqKey := |chans|;
        chans := chans + [Chan(None, false, waiter)];
        connRequests := connRequests + {reqKey};
        return Wait(reqKey);
      }
      numOpen := numOpen + 1;
      g := Open;
    }

    /** The critical section of `conn.quit`; `ok` says whether the command succeeded. */
    method FinishQuit(ok: bool)
      modifies this
      ensures View() == AfterQuit(old(View()), ok)
    {
      numOpen := numOpen - 1;
      if ok {
        MaybeOpenNewConnections();
      }
    }

    /** The first critical section of `Quit`: every request in the map is told. */
    method Close()
      requires !closed && forall k :: k in connRequests ==> k < |chans|
      modifies this
      ensures View() == CloseAll(old(View()))
    {
      var rest := connRequests;
      while rest != {}
        invariant rest <= connRequests && |chans| == |old(chans)|
        invariant View() == old(View()).(chans := chans)
        invariant forall k :: 0 <= k < |chans| ==>
                    chans[k] == if k in connRequests && k !in rest then old(chans)[k].(closed := true) else old(chans)[k]
        decreases rest
      {
        var k :| k in rest;
        chans := chans[k := chans[k].(closed := true)];
        rest := rest - {k};
      }
      closed := true;
      assert chans == CloseAll(old(View())).chans;
    }
  }

  /** What a caller leaves the critical section of `_conn` with. */
  datatype Grant = Refused | Free(cn: Conn) | Wait(k: nat) | Open
}
