/** Routing: the ring of points and the walk along it when a server is dead. */
module Ketama {
  import opened Octets

  /** A server, with the number of its place in the list. */
  datatype Server = Server(host: Bytes, port: nat, alias: Option<Bytes>)

  datatype Item = Item(hash: nat, conn: nat)

  const MC_DEFAULT_PORT := 11211
  const POINTS_PER_SERVER := 100

  // ---- the ring ----

  function BaseName(s: Server): Bytes {
    match s.alias
    case Some(alias) => alias
    case None => if s.port != MC_DEFAULT_PORT then s.host + [':'] + Decimal(s.port) else s.host
  }

  function PointName(s: Server, idx: nat): Bytes {
    BaseName(s) + ['-'] + Decimal(idx)
  }

  /** The first `n` points of server `conn`. */
  function PointsOf(hash: Bytes -> nat, s: Server, conn: nat, n: nat): (items: seq<Item>)
    ensures |items| == n && forall i :: 0 <= i < n ==> items[i] == Item(hash(PointName(s, i)), conn)
  {
    seq(n, i requires 0 <= i < n => Item(hash(PointName(s, i)), conn))
  }

  function AllPoints(hash: Bytes -> nat, servers: seq<Server>): (items: seq<Item>)
    ensures |items| == POINTS_PER_SERVER * |servers|
    ensures forall i :: 0 <= i < |items| ==> items[i].conn < |servers|
  {
    if servers == [] then []
    else
      var n := |servers| - 1;
      AllPoints(hash, servers[..n]) + PointsOf(hash, servers[n], n, POINTS_PER_SERVER)
  }

  /** The ring has a hundred points for each server, under the names of the server. */
  lemma {:induction false} HundredEach(hash: Bytes -> nat, servers: seq<Server>, conn: nat, idx: nat)
    requires conn < |servers| && idx < 100
    ensures |AllPoints(hash, servers)| == 100 * |servers|
    ensures AllPoints(hash, servers)[100 * conn + idx] == Item(hash(PointName(servers[conn], idx)), conn)
    decreases |servers|
  {
    var n := |servers| - 1;
    if conn < n {
      HundredEach(hash, servers[..n], conn, idx);
    }
  }

  // ---- the names of points ----

  lemma DecimalInjective(a: nat, b: nat)
    requires Decimal(a) == Decimal(b)
    ensures a == b
  {
    assert DigitsValue(Decimal(a)) == a && DigitsValue(Decimal(b)) == b;
  }

  /** What follows the last separator is a number. */
  lemma LastPart(a: Bytes, m: nat, b: Bytes, n: nat, c: octet)
    requires !IsDigit(c) && a + [c] + Decimal(m) == b + [c] + Decimal(n)
    ensures a == b && m == n
  {
    var s, t := a + [c] + Decimal(m), b + [c] + Decimal(n);
    SameEnd(a, Decimal(m), b, Decimal(n), c);
    assert s[..|a|] == a && t[..|b|] == b && s[|a| + 1..] == Decimal(m) && t[|b| + 1..] == Decimal(n);
    DecimalInjective(m, n);
  }

  lemma SameEnd(a: Bytes, d: Bytes, b: Bytes, e: Bytes, c: octet)
    requires !IsDigit(c) && AllDigits(d) && AllDigits(e) && a + [c] + d == b + [c] + e
    ensures |a| == |b|
  {
    if |a| < |b| {
      LaterEnd(a, d, b, e, c);
    } else if |b| < |a| {
      LaterEnd(b, e, a, d, c);
    }
  }

  lemma LaterEnd(a: Bytes, d: Bytes, b: Bytes, e: Bytes, c: octet)
    requires !IsDigit(c) && AllDigits(d) && |a| < |b|
    ensures a + [c] + d != b + [c] + e
  {
    var s, t := a + [c] + d, b + [c] + e;
    assert t[|b|] == c;
    if |b| < |s| {
      assert s[|b|] == d[|b| - |a| - 1];
    }
  }

  /** The name of a point tells the name of the server and the number of the point. */
  lemma PointNameInjective(s: Server, i: nat, t: Server, j: nat)
    requires PointName(s, i) == PointName(t, j)
    ensures BaseName(s) == BaseName(t) && i == j
  {
    LastPart(BaseName(s), i, BaseName(t), j, '-');
  }

  /** The name of a server without an alias tells its host and its port. */
  lemma BaseNameInjective(s: Server, t: Server)
    requires s.alias.None? && t.alias.None? && BaseName(s) == BaseName(t)
    requires s.host == t.host || (':' !in s.host && ':' !in t.host)
    ensures s.host == t.host && s.port == t.port
  {
    if s.port != MC_DEFAULT_PORT && t.port != MC_DEFAULT_PORT {
      LastPart(s.host, s.port, t.host, t.port, ':');
    } else if s.port != MC_DEFAULT_PORT {
      PortTold(s.host, s.port, t.host);
    } else if t.port != MC_DEFAULT_PORT {
      PortTold(t.host, t.port, s.host);
    }
  }

  lemma PortTold(host: Bytes, port: nat, other: Bytes)
    requires host == other || ':' !in other
    ensures host + [':'] + Decimal(port) != other
  {
    var name := host + [':'] + Decimal(port);
    assert name[|host|] == ':';
  }

  /** So servers without aliases never share the name of a point, unless they are the same. */
  lemma PointsDiffer(s: Server, i: nat, t: Server, j: nat)
    requires s.alias.None? && t.alias.None? && (s.host == t.host || (':' !in s.host && ':' !in t.host))
    ensures PointName(s, i) == PointName(t, j) <==> s.host == t.host && s.port == t.port && i == j
  {
    if PointName(s, i) == PointName(t, j) {
      PointNameInjective(s, i, t, j);
      BaseNameInjective(s, t);
    }
  }

  lemma TwoDigits(n: nat)
    requires 10 <= n < 100
    ensures Decimal(n) == [DigitChar(n / 10), DigitChar(n % 10)]
  {
  }

  /** The name has the port, unless it is 11211, and the alias takes the place of both. */
  lemma NameExamples(alias: Bytes)
    ensures PointName(Server("mc", 11211, None), 42) == "mc-42"
    ensures PointName(Server("mc", 80, None), 42) == "mc:80-42"
    ensures PointName(Server("mc", 80, Some(alias)), 42) == alias + "-42"
  {
    TwoDigits(42);
    TwoDigits(80);
  }

  predicate Sorted(c: seq<Item>) {
    forall i, j :: 0 <= i < j < |c| ==> c[i].hash <= c[j].hash
  }

  // ---- looking up a hash value ----

  /** The first point at or after `h`. */
  function FirstAtLeast(c: seq<Item>, h: nat): Option<Item> {
    if c == [] then None else if c[0].hash >= h then Some(c[0]) else FirstAtLeast(c[1..], h)
  }

  /** Lower bound with wraparound: the point after the last one is the first one. */
  function Owner(c: seq<Item>, h: nat): Option<nat> {
    match FirstAtLeast(c, h)
    case Some(item) => Some(item.conn)
    case None => if c != [] then Some(c[0].conn) else None
  }

  /** The ring without the points of dead servers. */
  function AliveRing(c: seq<Item>, alive: nat -> bool): seq<Item> {
    if c == [] then []
    else if alive(c[0].conn) then [c[0]] + AliveRing(c[1..], alive)
    else AliveRing(c[1..], alive)
  }

  /** Position of the first point of an alive server from `i` on. */
  function NextAlive(c: seq<Item>, alive: nat -> bool, i: nat): (j: nat)
    requires i <= |c|
    ensures i <= j <= |c| && (j < |c| ==> alive(c[j].conn))
    ensures forall k :: i <= k < j ==> !alive(c[k].conn)
    decreases |c| - i
  {
    if i == |c| || alive(c[i].conn) then i else NextAlive(c, alive, i + 1)
  }

  lemma {:induction false} AliveRingOrder(c: seq<Item>, alive: nat -> bool)
    ensures forall item <- AliveRing(c, alive) :: item in c && alive(item.conn)
    ensures Sorted(c) ==> Sorted(AliveRing(c, alive))
  {
    if c != [] {
      AliveRingOrder(c[1..], alive);
      if Sorted(c) {
        assert Sorted(c[1..]);
        assert forall item <- c[1..] :: c[0].hash <= item.hash;
      }
    }
  }

  /** The first alive point at or after `h`, found on the whole ring. */
  lemma {:induction false} FirstAliveAtLeast(c: seq<Item>, alive: nat -> bool, h: nat, lb: nat)
    requires lb <= |c| && (forall k :: 0 <= k < lb ==> c[k].hash < h) && (forall k :: lb <= k < |c| ==> c[k].hash >= h)
    ensures var j := NextAlive(c, alive, lb);
            FirstAtLeast(AliveRing(c, alive), h) == if j < |c| then Some(c[j]) else None
    decreases |c|
  {
    if c != [] {
      var rest := c[1..];
      assert forall k :: 0 <= k < |rest| ==> rest[k] == c[k + 1];
      if lb > 0 {
        FirstAliveAtLeast(rest, alive, h, lb - 1);
        NextAliveShift(c, alive, lb);
        assert ([c[0]] + AliveRing(rest, alive))[1..] == AliveRing(rest, alive);
      } else if !alive(c[0].conn) {
        FirstAliveAtLeast(rest, alive, h, 0);
        NextAliveShift(c, alive, 1);
      }
    }
  }

  lemma {:induction false} NextAliveShift(c: seq<Item>, alive: nat -> bool, i: nat)
    requires 0 < i <= |c|
    ensures NextAlive(c, alive, i) == NextAlive(c[1..], alive, i - 1) + 1
    decreases |c| - i
  {
    if i < |c| && !alive(c[i].conn) {
      NextAliveShift(c, alive, i + 1);
    }
  }

  lemma {:induction false} FirstAlive(c: seq<Item>, alive: nat -> bool)
    ensures var j := NextAlive(c, alive, 0);
            if j < |c| then AliveRing(c, alive) != [] && AliveRing(c, alive)[0] == c[j] else AliveRing(c, alive) == []
  {
    if c != [] && !alive(c[0].conn) {
      FirstAlive(c[1..], alive);
      NextAliveShift(c, alive, 1);
    }
  }

  /** The owner on the alive ring, found by walking along the whole ring. */
  lemma OwnerByWalking(c: seq<Item>, alive: nat -> bool, h: nat, lb: nat)
    requires lb <= |c| && (forall k :: 0 <= k < lb ==> c[k].hash < h) && (forall k :: lb <= k < |c| ==> c[k].hash >= h)
    ensures var j, j0 := NextAlive(c, alive, lb), NextAlive(c, alive, 0);
            Owner(AliveRing(c, alive), h) ==
            if j < |c| then Some(c[j].conn) else if j0 < |c| then Some(c[j0].conn) else None
  {
    FirstAliveAtLeast(c, alive, h, lb);
    FirstAlive(c, alive);
  }

  /** The owner is the server of a point that is nearest: no point lies between the hash
      value and it or, if no point is at or after the hash value, none lies before it. */
  lemma {:induction false} OwnerNearest(c: seq<Item>, h: nat)
    requires Sorted(c) && c != []
    ensures Owner(c, h).Some?
    ensures (exists item <- c :: item.hash >= h) ==>
              exists item <- c :: item.conn == Owner(c, h).value && item.hash >= h && forall x <- c :: x.hash >= h ==> item.hash <= x.hash
    ensures (forall item <- c :: item.hash < h) ==>
              exists item <- c :: item.conn == Owner(c, h).value && forall x <- c :: item.hash <= x.hash
  {
    FirstIsNearest(c, h);
    if FirstAtLeast(c, h).None? {
      assert c[0] in c;
    }
  }

  lemma {:induction false} FirstIsNearest(c: seq<Item>, h: nat)
    requires Sorted(c)
    ensures match FirstAtLeast(c, h)
            case Some(item) => item in c && item.hash >= h && forall x <- c :: x.hash >= h ==> item.hash <= x.hash
            case None => forall x <- c :: x.hash < h
  {
    if c != [] && c[0].hash < h {
      FirstIsNearest(c[1..], h);
      assert c == [c[0]] + c[1..];
    }
  }

  // ---- losing a server ----

  /** `alive` without server `s`. */
  function Without(alive: nat -> bool, s: nat): nat -> bool {
    (x: nat) => alive(x) && x != s
  }

  function Not(s: nat): nat -> bool {
    (x: nat) => x != s
  }

  lemma {:induction false} RingWithout(c: seq<Item>, alive: nat -> bool, s: nat)
    ensures AliveRing(c, Without(alive, s)) == AliveRing(AliveRing(c, alive), Not(s))
  {
    if c != [] {
      RingWithout(c[1..], alive, s);
      if alive(c[0].conn) {
        assert AliveRing(c, alive)[1..] == AliveRing(c[1..], alive);
      }
    }
  }

  lemma {:induction false} FirstStays(c: seq<Item>, h: nat, s: nat)
    requires FirstAtLeast(c, h).Some? && FirstAtLeast(c, h).value.conn != s
    ensures FirstAtLeast(AliveRing(c, Not(s)), h) == FirstAtLeast(c, h)
  {
    if c[0].hash < h {
      FirstStays(c[1..], h, s);
      if c[0].conn != s {
        assert ([c[0]] + AliveRing(c[1..], Not(s)))[1..] == AliveRing(c[1..], Not(s));
      }
    }
  }

  lemma {:induction false} NoneStays(c: seq<Item>, h: nat, s: nat)
    requires FirstAtLeast(c, h).None?
    ensures FirstAtLeast(AliveRing(c, Not(s)), h).None?
  {
    if c != [] {
      NoneStays(c[1..], h, s);
      if c[0].conn != s {
        assert ([c[0]] + AliveRing(c[1..], Not(s)))[1..] == AliveRing(c[1..], Not(s));
      }
    }
  }

  /** Losing a server moves only the keys that were its own. */
  lemma OnlyItsKeysMove(c: seq<Item>, alive: nat -> bool, h: nat, s: nat)
    requires Owner(AliveRing(c, alive), h) != Some(s)
    ensures Owner(AliveRing(c, Without(alive, s)), h) == Owner(AliveRing(c, alive), h)
  {
    var ring := AliveRing(c, alive);
    RingWithout(c, alive, s);
    if FirstAtLeast(ring, h).Some? {
      FirstStays(ring, h, s);
    } else {
      NoneStays(ring, h, s);
    }
  }

  lemma {:induction false} FirstWithin(c: seq<Item>, h: nat)
    ensures FirstAtLeast(c, h).Some? ==> FirstAtLeast(c, h).value in c
  {
    if c != [] && c[0].hash < h {
      FirstWithin(c[1..], h);
    }
  }

  /** No server is found exactly when none is alive. */
  lemma NoneIffAllDead(c: seq<Item>, alive: nat -> bool, h: nat)
    ensures Owner(AliveRing(c, alive), h).None? <==> forall item <- c :: !alive(item.conn)
  {
    FirstAlive(c, alive);
    AliveRingOrder(c, alive);
    FirstWithin(AliveRing(c, alive), h);
    var j := NextAlive(c, alive, 0);
    if j < |c| {
      assert c[j] in c;
    }
  }

  // ---- the selector ----

  /** What `getServerIt` should answer for the hash value `h`. */
  function Answer(c: seq<Item>, h: nat, checkAlive: bool, failover: bool, alive: nat -> bool): Option<nat> {
    if !checkAlive then Owner(c, h)
    else if failover then Owner(AliveRing(c, alive), h)
    else match Owner(c, h) case Some(s) => if alive(s) then Some(s) else None case None => None
  }

  /** Every server is alive. */
  function All(): nat -> bool {
    (x: nat) => true
  }

  /** What a lookup promises in each of its modes.  Without a liveness check the answer is
      that of a ring on which all are alive; with one it is an alive server.  As long as the
      owner is alive the modes agree; when it is dead, there is no answer without failover,
      and with failover there is one as long as any server with a point is alive. */
  lemma Answers(c: seq<Item>, h: nat, failover: bool, alive: nat -> bool)
    requires c != []
    ensures var owner := Answer(c, h, false, failover, alive);
            var r := Answer(c, h, true, failover, alive);
            && owner == Answer(c, h, true, true, All()) && owner.Some?
            && (r.Some? ==> alive(r.value))
            && (alive(owner.value) ==> r == owner)
            && (!alive(owner.value) && !failover ==> r.None?)
            && (!alive(owner.value) && failover ==> (r.None? <==> forall item <- c :: !alive(item.conn)))
  {
    AllAliveRing(c);
    NoneIffAllDead(c, alive, h);
    FirstWithin(AliveRing(c, alive), h);
    AliveRingOrder(c, alive);
    if alive(Owner(c, h).value) {
      AliveOwner(c, h, alive);
    }
  }

  /** An owner that is alive stays the owner when the points of dead servers are left out. */
  lemma {:induction false} AliveOwner(c: seq<Item>, h: nat, alive: nat -> bool)
    requires c != [] && alive(Owner(c, h).value)
    ensures Owner(AliveRing(c, alive), h) == Owner(c, h)
  {
    AliveFirst(c, h, alive);
    if FirstAtLeast(c, h).None? {
      FirstAlive(c, alive);
      assert NextAlive(c, alive, 0) == 0;
    }
  }

  lemma {:induction false} AliveFirst(c: seq<Item>, h: nat, alive: nat -> bool)
    requires FirstAtLeast(c, h).Some? ==> alive(FirstAtLeast(c, h).value.conn)
    ensures FirstAtLeast(AliveRing(c, alive), h) == FirstAtLeast(c, h)
  {
    if c != [] && c[0].hash < h {
      AliveFirst(c[1..], h, alive);
      if alive(c[0].conn) {
        assert ([c[0]] + AliveRing(c[1..], alive))[1..] == AliveRing(c[1..], alive);
      }
    }
  }

  method Insert(r: seq<Item>, x: Item) returns (r': seq<Item>)
    requires Sorted(r)
    ensures Sorted(r') && multiset(r') == multiset(r) + multiset{x}
  {
    var k := 0;
    while k < |r| && r[k].hash <= x.hash
      invariant k <= |r| && forall j :: 0 <= j < k ==> r[j].hash <= x.hash
    {
      k := k + 1;
    }
    r' := r[..k] + [x] + r[k..];
    assert r == r[..k] + r[k..];
    assert forall j :: k <= j < |r| ==> x.hash <= r[j].hash;
  }

  /** Any sort will do: points with the same hash value may come in any order. */
  method Sort(items: seq<Item>) returns (r: seq<Item>)
    ensures Sorted(r) && multiset(r) == multiset(items)
  {
    r := [];
    for i := 0 to |items|
      invariant Sorted(r) && multiset(r) == multiset(items[..i])
    {
      assert items[..i + 1] == items[..i] + [items[i]];
      r := Insert(r, items[i]);
    }
    assert items[..|items|] == items;
  }

  class KetamaSelector {
    const hashMd5: Bytes -> nat
    var continuum: seq<Item>
    var nServers: nat
    var useFailover: bool
    var hashFunction: Option<Bytes -> nat>

    ghost predicate Valid()
      reads this
    {
      && Sorted(continuum) && (nServers > 0 <==> continuum != [])
      && forall i :: 0 <= i < |continuum| ==> continuum[i].conn < nServers
    }

    constructor (hashMd5: Bytes -> nat)
      ensures Valid() && nServers == 0 && !useFailover && hashFunction.None? && this.hashMd5 == hashMd5
    {
      this.hashMd5 := hashMd5;
      continuum, nServers, useFailover, hashFunction := [], 0, false, None;
    }

    method Reset()
      modifies this`continuum, this`nServers
      ensures Valid() && nServers == 0 && continuum == []
    {
      continuum, nServers := [], 0;
    }

    /** `addServers`, after `reset`: a hundred points for each server, in order. */
    method AddServers(servers: seq<Server>)
      requires continuum == []
      modifies this`continuum, this`nServers
      ensures Valid() && nServers == |servers|
      ensures multiset(continuum) == multiset(AllPoints(hashMd5, servers))
    {
      for i := 0 to |servers|
        invariant continuum == AllPoints(hashMd5, servers[..i])
      {
        ghost var before := continuum;
        for idx := 0 to POINTS_PER_SERVER
          invariant continuum == before + PointsOf(hashMd5, servers[i], i, idx)
        {
          continuum := continuum + [Item(hashMd5(PointName(servers[i], idx)), i)];
        }
        assert servers[..i + 1][..i] == servers[..i];
      }
      assert servers[..|servers|] == servers;
      nServers := |servers|;
      ghost var points := continuum;
      continuum := Sort(continuum);
      SameItems(continuum, points);
    }

    static lemma SameItems(c: seq<Item>, points: seq<Item>)
      requires multiset(c) == multiset(points)
      ensures |c| == |points| && forall i :: 0 <= i < |c| ==> c[i] in points
    {
      assert |c| == |multiset(c)| && |points| == |multiset(points)|;
      forall i | 0 <= i < |c| ensures c[i] in points {
        assert c[i] in multiset(c);
      }
    }

    /** `std::lower_bound` */
    method LowerBound(h: nat) returns (lb: nat)
      requires Sorted(continuum)
      ensures lb <= |continuum|
      ensures (forall k :: 0 <= k < lb ==> continuum[k].hash < h) && (forall k :: lb <= k < |continuum| ==> continuum[k].hash >= h)
    {
      lb := 0;
      var hi := |continuum|;
      while lb < hi
        invariant lb <= hi <= |continuum|
        invariant forall k :: 0 <= k < lb ==> continuum[k].hash < h
        invariant forall k :: hi <= k < |continuum| ==> continuum[k].hash >= h
      {
        var mid := (lb + hi) / 2;
        if continuum[mid].hash < h {
          lb := mid + 1;
        } else {
          hi := mid;
        }
      }
    }

    /** The walk along the ring: the next point of another server that is alive. */
    method WalkOn(start: nat, alive: nat -> bool) returns (it: nat)
      requires start < |continuum| && !alive(continuum[start].conn)
      ensures var j, j0 := NextAlive(continuum, alive, start), NextAlive(continuum, alive, 0);
              it == if j < |continuum| then j else j0
    {
      var origin := continuum[start].conn;
      it := start;
      var maxIter := |continuum|;
      while true
        invariant 0 < maxIter <= |continuum| && it < |continuum|
        invariant start <= it ==> it == start + (|continuum| - maxIter) && forall k :: start <= k <= it ==> !alive(continuum[k].conn)
        invariant it < start ==> it + |continuum| == start + (|continuum| - maxIter)
        invariant it < start ==> forall k :: start <= k < |continuum| ==> !alive(continuum[k].conn)
        invariant it < start ==> forall k :: 0 <= k <= it ==> !alive(continuum[k].conn)
        decreases maxIter
      {
        it := it + 1;
        if it == |continuum| {
          it := 0;
        }
        if continuum[it].conn != origin && alive(continuum[it].conn) {
          break;
        }
        maxIter := maxIter - 1;
        if maxIter == 0 {
          AllDead(continuum, alive, start);
          it := |continuum|;
          break;
        }
      }
      if it < |continuum| {
        if start <= it {
          NextAliveIs(continuum, alive, start, it);
        } else {
          NextAliveIs(continuum, alive, start, |continuum|);
          NextAliveIs(continuum, alive, 0, it);
        }
      }
    }

    static lemma {:induction false} NextAliveIs(c: seq<Item>, alive: nat -> bool, i: nat, j: nat)
      requires i <= j <= |c| && (forall k :: i <= k < j ==> !alive(c[k].conn)) && (j < |c| ==> alive(c[j].conn))
      ensures NextAlive(c, alive, i) == j
      decreases j - i
    {
      if i < j {
        NextAliveIs(c, alive, i + 1, j);
      }
    }

    static lemma AllDead(c: seq<Item>, alive: nat -> bool, start: nat)
      requires start < |c| && forall k :: 0 <= k < |c| ==> !alive(c[k].conn)
      ensures NextAlive(c, alive, start) == |c| == NextAlive(c, alive, 0)
    {
      NextAliveIs(c, alive, start, |c|);
      NextAliveIs(c, alive, 0, |c|);
    }

    function KeyHash(): Bytes -> nat
      reads this`hashFunction
    {
      if hashFunction.Some? then hashFunction.value else hashMd5
    }

    /** The point the lookup starts from; there is no need to hash for a single server. */
    method StartingPoint(key: Bytes) returns (start: nat, ghost lb: nat)
      requires Valid() && nServers > 0
      modifies this`hashFunction
      ensures KeyHash() == old(KeyHash())
      ensures lb <= |continuum| && start == (if lb == |continuum| then 0 else lb) < |continuum|
      ensures nServers > 1 ==> Splits(continuum, KeyHash()(key), lb)
    {
      start := 0;
      if nServers > 1 {
        if hashFunction.None? {
          hashFunction := Some(hashMd5);
        }
        start := LowerBound(hashFunction.value(key));
      }
      lb := start;
      if start == |continuum| {
        start := 0;
      }
    }

    /** What is at the starting point. */
    lemma StartAnswers(h: nat, start: nat, lb: nat, alive: nat -> bool)
      requires Valid() && nServers > 0 && lb <= |continuum| && start == (if lb == |continuum| then 0 else lb) < |continuum|
      requires nServers > 1 ==> Splits(continuum, h, lb)
      ensures Owner(continuum, h) == Some(continuum[start].conn)
      ensures Owner(AliveRing(continuum, alive), h) == Walk(continuum, alive, lb)
    {
      if nServers > 1 {
        OwnerFrom(continuum, alive, h, lb);
      } else {
        SingleOwner(continuum, alive, h);
      }
    }

    lemma AliveHere(start: nat, lb: nat, alive: nat -> bool)
      requires lb <= |continuum| && start == (if lb == |continuum| then 0 else lb) < |continuum|
      requires alive(continuum[start].conn)
      ensures Walk(continuum, alive, lb) == Some(continuum[start].conn)
    {
      NextAliveIs(continuum, alive, start, start);
      WalkIsOwner(continuum, alive, start, lb);
    }

    /** The failover walk from a dead starting point. */
    method Failover(start: nat, ghost lb: nat, alive: nat -> bool) returns (it: nat)
      requires lb <= |continuum| && start == (if lb == |continuum| then 0 else lb) < |continuum|
      requires !alive(continuum[start].conn)
      ensures it <= |continuum|
      ensures (if it < |continuum| then Some(continuum[it].conn) else None) == Walk(continuum, alive, lb)
    {
      it := WalkOn(start, alive);
      WalkIsOwner(continuum, alive, start, lb);
    }

    /** `getServerIt`: the position of a point, or of the end.  The liveness of the servers
        does not change during the call. */
    method GetServerIt(key: Bytes, checkAlive: bool, alive: nat -> bool) returns (it: nat)
      requires Valid()
      modifies this`hashFunction
      ensures KeyHash() == old(KeyHash()) && it <= |continuum|
      ensures (if it < |continuum| then Some(continuum[it].conn) else None) ==
              Answer(continuum, KeyHash()(key), checkAlive, useFailover, alive)
    {
      if nServers == 0 {
        return 0;
      }
      ghost var lb;
      it, lb := StartingPoint(key);
      StartAnswers(KeyHash()(key), it, lb, alive);
      var isAlive := true;
      if checkAlive {
        isAlive := alive(continuum[it].conn);
      }
      if !isAlive {
        if useFailover {
          it := Failover(it, lb, alive);
        } else {
          it := |continuum|;
        }
      } else if checkAlive && useFailover {
        AliveHere(it, lb, alive);
      }
    }

    /** `getServer` */
    method GetServer(key: Bytes, checkAlive: bool, alive: nat -> bool) returns (r: int)
      requires Valid()
      modifies this`hashFunction
      ensures KeyHash() == old(KeyHash())
      ensures match Answer(continuum, KeyHash()(key), checkAlive, useFailover, alive)
              case Some(s) => r == s < nServers
              case None => r == -1
    {
      var it := GetServerIt(key, checkAlive, alive);
      r := if it == |continuum| then -1 else continuum[it].conn;
    }
  }

  /** `lb` is the lower bound of `h`. */
  predicate Splits(c: seq<Item>, h: nat, lb: nat) {
    && lb <= |c| && (forall k :: 0 <= k < lb ==> c[k].hash < h) && (forall k :: lb <= k < |c| ==> c[k].hash >= h)
  }

  /** Where the walk from the lower bound ends. */
  function Walk(c: seq<Item>, alive: nat -> bool, lb: nat): Option<nat>
    requires lb <= |c|
  {
    var j, j0 := NextAlive(c, alive, lb), NextAlive(c, alive, 0);
    if j < |c| then Some(c[j].conn) else if j0 < |c| then Some(c[j0].conn) else None
  }

  /** Starting at the lower bound or, if that is the end, at the first point comes to the
      same. */
  lemma WalkIsOwner(c: seq<Item>, alive: nat -> bool, start: nat, lb: nat)
    requires lb <= |c| && start == (if lb == |c| then 0 else lb) < |c|
    ensures var j, j0 := NextAlive(c, alive, start), NextAlive(c, alive, 0);
            Walk(c, alive, lb) == (if j < |c| then Some(c[j].conn) else if j0 < |c| then Some(c[j0].conn) else None)
  {
  }

  lemma OwnerFrom(c: seq<Item>, alive: nat -> bool, h: nat, lb: nat)
    requires Splits(c, h, lb) && c != []
    ensures Owner(AliveRing(c, alive), h) == Walk(c, alive, lb)
    ensures Owner(c, h) == Some(c[if lb == |c| then 0 else lb].conn)
  {
    OwnerByWalking(c, alive, h, lb);
    AllAliveRing(c);
    OwnerByWalking(c, All(), h, lb);
  }

  lemma {:induction false} AllAliveRing(c: seq<Item>)
    ensures AliveRing(c, All()) == c
  {
    if c != [] {
      AllAliveRing(c[1..]);
    }
  }

  /** With a single server it does not matter where the lookup starts. */
  lemma SingleOwner(c: seq<Item>, alive: nat -> bool, h: nat)
    requires c != [] && forall i :: 0 <= i < |c| ==> c[i].conn == 0
    ensures Owner(c, h) == Some(0) && Owner(AliveRing(c, alive), h) == Walk(c, alive, 0)
  {
    FirstWithin(c, h);
    AliveRingOrder(c, alive);
    FirstWithin(AliveRing(c, alive), h);
    FirstAlive(c, alive);
    assert forall item <- c :: item.conn == 0;
  }
}
