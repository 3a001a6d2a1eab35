/** Spreading commands over connections, and putting their results together again. */
module ConnectionPools {
  import opened Octets
  import opened Itoa
  import opened ReplyMachine
  import opened Chunking
  import opened Replies
  import opened Receiving
  import opened Commands

  /** Something to be sent for `key`, and the connection the selector names for it when
      asked: none if no server is alive. */
  datatype Placed<T> = Placed(item: T, key: Bytes, to: Option<nat>)

  predicate GoesTo<T>(p: Placed<T>, c: nat) {
    ValidKey(p.key) && p.to == Some(c)
  }

  /** What connection `c` gets, in the order of the request. */
  function Routed<T>(ps: seq<Placed<T>>, c: nat): seq<T> {
    if ps == [] then []
    else Routed(ps[..|ps| - 1], c) + (if GoesTo(Last(ps), c) then [Last(ps).item] else [])
  }

  /** What the first `n` connections get, one after the other. */
  function Spread<T>(ps: seq<Placed<T>>, n: nat): seq<T> {
    if n == 0 then [] else Spread(ps, n - 1) + Routed(ps, n - 1)
  }

  /** Everything that has a valid key and a connection below `n`. */
  function Routable<T>(ps: seq<Placed<T>>, n: nat): seq<T> {
    if ps == [] then []
    else
      var p := Last(ps);
      Routable(ps[..|ps| - 1], n) + (if Reaches(p, n) then [p.item] else [])
  }

  function InvalidKeys<T>(ps: seq<Placed<T>>): nat {
    if ps == [] then 0 else InvalidKeys(ps[..|ps| - 1]) + (if ValidKey(Last(ps).key) then 0 else 1)
  }

  lemma RoutedSnoc<T>(ps: seq<Placed<T>>, p: Placed<T>, c: nat)
    ensures Routed(ps + [p], c) == Routed(ps, c) + (if GoesTo(p, c) then [p.item] else [])
    ensures InvalidKeys(ps + [p]) == InvalidKeys(ps) + (if ValidKey(p.key) then 0 else 1)
  {
    assert (ps + [p])[..|ps|] == ps;
  }

  predicate Reaches<T>(p: Placed<T>, n: nat) {
    ValidKey(p.key) && p.to.Some? && p.to.value < n
  }

  /** `p`'s item, if it goes to one of the first `n` connections. */
  function Reaching<T>(p: Placed<T>, n: nat): multiset<T> {
    if Reaches(p, n) then multiset{p.item} else multiset{}
  }

  function Here<T>(p: Placed<T>, c: nat): multiset<T> {
    if GoesTo(p, c) then multiset{p.item} else multiset{}
  }

  lemma RoutedHere<T>(ps: seq<Placed<T>>, p: Placed<T>, c: nat)
    ensures multiset(Routed(ps + [p], c)) == multiset(Routed(ps, c)) + Here(p, c)
  {
    RoutedSnoc(ps, p, c);
  }

  lemma SpreadOneMore<T>(ps: seq<Placed<T>>, n: nat)
    ensures multiset(Spread(ps, n + 1)) == multiset(Spread(ps, n)) + multiset(Routed(ps, n))
  {
  }

  lemma Regroup<T>(a: multiset<T>, x: multiset<T>, b: multiset<T>, y: multiset<T>)
    ensures a + x + (b + y) == (a + b) + (x + y)
  {
  }

  lemma ReachingOneMore<T>(p: Placed<T>, n: nat)
    ensures Reaching(p, n + 1) == Reaching(p, n) + Here(p, n)
  {
  }

  lemma SpreadNext<T>(ps: seq<Placed<T>>, p: Placed<T>, n: nat)
    requires multiset(Spread(ps + [p], n)) == multiset(Spread(ps, n)) + Reaching(p, n)
    ensures multiset(Spread(ps + [p], n + 1)) == multiset(Spread(ps, n + 1)) + Reaching(p, n + 1)
  {
    RoutedHere(ps, p, n);
    SpreadOneMore(ps + [p], n);
    SpreadOneMore(ps, n);
    ReachingOneMore(p, n);
    Regroup(multiset(Spread(ps, n)), Reaching(p, n), multiset(Routed(ps, n)), Here(p, n));
  }

  lemma SpreadNowhere<T>(ps: seq<Placed<T>>, p: Placed<T>)
    ensures multiset(Spread(ps + [p], 0)) == multiset(Spread(ps, 0)) + Reaching(p, 0)
  {
    assert Spread(ps + [p], 0) == [] && Spread(ps, 0) == [] && Reaching(p, 0) == multiset{};
  }

  lemma SpreadSnoc<T>(ps: seq<Placed<T>>, p: Placed<T>, n: nat)
    ensures multiset(Spread(ps + [p], n)) == multiset(Spread(ps, n)) + Reaching(p, n)
  {
    SpreadNowhere(ps, p);
    for i := 0 to n
      invariant multiset(Spread(ps + [p], i)) == multiset(Spread(ps, i)) + Reaching(p, i)
    {
      SpreadNext(ps, p, i);
    }
  }

  lemma {:induction false} SpreadNothing<T>(n: nat)
    ensures Spread<T>([], n) == []
  {
    if n > 0 {
      SpreadNothing<T>(n - 1);
    }
  }

  /** Partition: nothing that can be routed is lost, and nothing is sent twice. */
  lemma {:induction false} Partition<T>(ps: seq<Placed<T>>, n: nat)
    ensures multiset(Spread(ps, n)) == multiset(Routable(ps, n))
  {
    if ps == [] {
      SpreadNothing<T>(n);
    } else {
      var init, p := ps[..|ps| - 1], Last(ps);
      assert ps == init + [p];
      Partition(init, n);
      SpreadSnoc(init, p, n);
    }
  }

  /** Every key is valid and has a connection, or is counted as invalid. */
  lemma {:induction false} EveryKeyCounted<T>(ps: seq<Placed<T>>, n: nat)
    requires forall i :: 0 <= i < |ps| ==> ValidKey(ps[i].key) ==> ps[i].to.Some? && ps[i].to.value < n
    ensures |Spread(ps, n)| + InvalidKeys(ps) == |ps|
  {
    Partition(ps, n);
    assert |multiset(Spread(ps, n))| == |Spread(ps, n)| && |multiset(Routable(ps, n))| == |Routable(ps, n)|;
    RoutableCounted(ps, n);
  }

  lemma {:induction false} RoutableCounted<T>(ps: seq<Placed<T>>, n: nat)
    requires forall i :: 0 <= i < |ps| ==> ValidKey(ps[i].key) ==> ps[i].to.Some? && ps[i].to.value < n
    ensures |Routable(ps, n)| + InvalidKeys(ps) == |ps|
  {
    if ps != [] {
      RoutableCounted(ps[..|ps| - 1], n);
      assert ValidKey(ps[|ps| - 1].key) ==> Reaches(Last(ps), n);
    }
  }

  // ---- commands ----

  /** The commands of one call: their types are in order and they all ask for a reply, or
      none does. */
  predicate OneCall(ps: seq<Placed<Command>>, noreply: bool) {
    forall i :: 0 <= i < |ps| ==> Typed(ps[i].item) && ps[i].key == ps[i].item.key && ps[i].item.noreply == noreply
  }

  lemma {:induction false} RoutedValid(ps: seq<Placed<Command>>, noreply: bool, c: nat)
    requires OneCall(ps, noreply)
    ensures AllValid(Routed(ps, c)) && AllTyped(Routed(ps, c))
  {
    if ps != [] {
      assert OneCall(ps[..|ps| - 1], noreply);
      RoutedValid(ps[..|ps| - 1], noreply, c);
      assert Typed(ps[|ps| - 1].item);
    }
  }

  function KeysOf(cs: seq<Command>): (ks: seq<Bytes>)
    ensures |ks| == |cs|
  {
    seq(|cs|, i requires 0 <= i < |cs| => cs[i].key)
  }

  // ---- connections ----

  /** What the pool has given to a connection: the bytes queued, the keys to which replies
      are expected, the number of commands (later of replies), and the parser mode. */
  datatype Outgoing = Outgoing(queued: Bytes, keys: seq<Bytes>, counter: nat, mode: Option<ParserMode>)

  const IDLE := Outgoing([], [], 0, None)

  /** A connection while commands are being queued. */
  ghost function Pending(ps: seq<Placed<Command>>, noreply: bool, c: nat): Outgoing
    requires OneCall(ps, noreply)
  {
    RoutedValid(ps, noreply, c);
    Holding(Routed(ps, c), noreply)
  }

  /** A connection that was given `cs`, and nothing else. */
  ghost function Holding(cs: seq<Command>, noreply: bool): Outgoing
    requires AllTyped(cs)
  {
    Outgoing(EncodeAll(cs), if noreply then [] else KeysOf(cs), |cs|, None)
  }

  /** What a connection has to do, when all commands have been queued. */
  function Settled(o: Outgoing): Outgoing {
    o.(mode := if o.counter > 0 then Some(Counting) else o.mode, counter := |o.keys|)
  }

  /** A connection to which nothing goes is left alone. */
  lemma SettledIdle(ps: seq<Placed<Command>>, noreply: bool, c: nat)
    requires OneCall(ps, noreply) && Routed(ps, c) == []
    ensures Settled(Pending(ps, noreply, c)) == IDLE
  {
    assert KeysOf([]) == [] && Texts([]) == [];
  }

  lemma HoldingSnoc(cs: seq<Command>, cmd: Command)
    requires AllTyped(cs) && AllTyped(cs + [cmd]) && Typed(cmd)
    ensures Holding(cs + [cmd], cmd.noreply) == Queued(Holding(cs, cmd.noreply), cmd)
  {
    EncodeSnoc(cs, cmd);
    assert KeysOf(cs + [cmd]) == KeysOf(cs) + [cmd.key];
  }

  lemma OneCallFirst(ps: seq<Placed<Command>>, p: Placed<Command>, noreply: bool)
    requires OneCall(ps + [p], noreply)
    ensures OneCall(ps, noreply) && Typed(p.item) && p.item.noreply == noreply
  {
    var all := ps + [p];
    assert all[|ps|] == p && p.item.noreply == noreply;
    assert forall i :: 0 <= i < |ps| ==> ps[i] == all[i];
  }

  lemma PendingSnoc(ps: seq<Placed<Command>>, p: Placed<Command>, noreply: bool, c: nat)
    requires OneCall(ps + [p], noreply)
    ensures OneCall(ps, noreply) && Typed(p.item)
    ensures Pending(ps + [p], noreply, c) ==
            if GoesTo(p, c) then Queued(Pending(ps, noreply, c), p.item) else Pending(ps, noreply, c)
  {
    OneCallFirst(ps, p, noreply);
    RoutedSnoc(ps, p, c);
    RoutedValid(ps, noreply, c);
    RoutedValid(ps + [p], noreply, c);
    var cs := Routed(ps, c);
    if GoesTo(p, c) {
      assert Routed(ps + [p], c) == cs + [p.item];
      HoldingSnoc(cs, p.item);
    } else {
      assert Routed(ps + [p], c) == cs;
    }
  }

  /** A connection that is given one more command. */
  function Queued(o: Outgoing, cmd: Command): Outgoing
    requires Typed(cmd)
  {
    Outgoing(o.queued + Encode(cmd), if cmd.noreply then o.keys else o.keys + [cmd.key], o.counter + 1, o.mode)
  }

  /** The connections among the first `n` that have something to send, in order. */
  function Active(os: seq<Outgoing>, n: nat): seq<nat>
    requires n <= |os|
  {
    if n == 0 then [] else Active(os, n - 1) + (if os[n - 1].counter > 0 then [n - 1] else [])
  }

  /** The connections among the first `n` to which something goes. */
  function Busy<T>(ps: seq<Placed<T>>, n: nat): seq<nat> {
    if n == 0 then [] else Busy(ps, n - 1) + (if Routed(ps, n - 1) != [] then [n - 1] else [])
  }

  lemma {:induction false} ActiveBusy<T>(ps: seq<Placed<T>>, os: seq<Outgoing>, n: nat)
    requires n <= |os| && forall c :: 0 <= c < n ==> os[c].counter == |Routed(ps, c)|
    ensures Active(os, n) == Busy(ps, n)
    decreases n
  {
    if n > 0 {
      ActiveBusy(ps, os, n - 1);
      assert os[n - 1].counter == |Routed(ps, n - 1)|;
    }
  }

  /** A connection that has been asked for the keys `ks`, while the line is open. */
  function Asking(verb: Bytes, ks: seq<Bytes>): Outgoing {
    if ks == [] then IDLE else Outgoing(Join([verb] + ks), [], |ks|, None)
  }

  function Asked(verb: Bytes, ks: seq<Bytes>): Outgoing {
    if ks == [] then IDLE else Outgoing(Join([verb] + ks) + CRLF, [], |ks|, Some(EndState))
  }

  predicate Below(active: seq<nat>, n: nat) {
    forall i :: 0 <= i < |active| ==> active[i] < n
  }

  function MessagesOf(parsed: seq<PState>, active: seq<nat>): seq<Message>
    requires Below(active, |parsed|)
  {
    if active == [] then [] else MessagesOf(parsed, active[..|active| - 1]) + parsed[Last(active)].messages
  }

  function ValuesOf(parsed: seq<PState>, active: seq<nat>): seq<Retrieval>
    requires Below(active, |parsed|)
  {
    if active == [] then [] else ValuesOf(parsed, active[..|active| - 1]) + Kept(parsed[Last(active)].retrievals)
  }

  class ConnectionPool {
    const conns: array<Outgoing>
    var nActiveConn: nat
    var nInvalidKey: nat
    var activeConns: seq<nat>

    /** As after `reset`. */
    ghost predicate Fresh()
      reads this, conns
    {
      && nActiveConn == 0 && nInvalidKey == 0 && activeConns == []
      && forall c :: 0 <= c < conns.Length ==> conns[c] == IDLE
    }

    /** As after a dispatch: nothing was given to a connection that is not active. */
    ghost predicate Resettable()
      reads this, conns
    {
      && Below(activeConns, conns.Length)
      && forall c :: 0 <= c < conns.Length ==> c in activeConns || conns[c] == IDLE
    }

    constructor (n: nat)
      ensures Fresh() && fresh(conns) && conns.Length == n
    {
      conns := new Outgoing[n](_ => IDLE);
      nActiveConn, nInvalidKey, activeConns := 0, 0, [];
    }

    /** `isValidKey` */
    static method IsValidKey(key: Bytes) returns (ok: bool)
      ensures ok <==> |key| <= 250 && forall i :: 0 <= i < |key| ==> key[i] !in [' ', '\r', '\n', '\0']
      ensures ok <==> ValidKey(key)
    {
      if |key| > MC_MAX_KEY_LENGTH {
        return false;
      }
      for i := 0 to |key|
        invariant ValidKey(key[..i])
      {
        if key[i] == ' ' || key[i] == '\r' || key[i] == '\n' || key[i] == '\0' {
          return false;
        }
        assert key[..i + 1] == key[..i] + [key[i]];
      }
      assert key[..|key|] == key;
      return true;
    }

    method TakeBuffer(c: nat, buf: Bytes)
      requires c < conns.Length
      modifies conns
      ensures conns[..] == old(conns[..])[c := old(conns[c]).(queued := old(conns[c]).queued + buf)]
    {
      conns[c] := conns[c].(queued := conns[c].queued + buf);
    }

    method TakeNumber(c: nat, val: int)
      requires c < conns.Length && -TWO_63 <= val < TWO_63
      modifies conns
      ensures conns[..] == old(conns[..])[c := old(conns[c]).(queued := old(conns[c]).queued + SignedDecimal(val))]
    {
      var buf, len := Int64ToCharArray(val);
      TakeBuffer(c, buf[..len]);
    }

    /** A blank and a word of the command line. */
    method TakeWord(c: nat, w: Bytes, ghost base: Bytes, ghost ws: seq<Bytes>)
      requires c < conns.Length && ws != [] && conns[c].queued == base + Join(ws)
      modifies conns
      ensures conns[..] == old(conns[..])[c := old(conns[c]).(queued := base + Join(ws + [w]))]
    {
      JoinSnoc(base, ws, w);
      TakeBuffer(c, SP);
      TakeBuffer(c, w);
    }

    method TakeNumberWord(c: nat, val: int, ghost base: Bytes, ghost ws: seq<Bytes>)
      requires c < conns.Length && -TWO_63 <= val < TWO_63 && ws != [] && conns[c].queued == base + Join(ws)
      modifies conns
      ensures conns[..] == old(conns[..])[c := old(conns[c]).(queued := base + Join(ws + [SignedDecimal(val)]))]
    {
      JoinSnoc(base, ws, SignedDecimal(val));
      TakeBuffer(c, SP);
      TakeNumber(c, val);
    }

    static lemma JoinSnoc(base: Bytes, ws: seq<Bytes>, w: Bytes)
      requires ws != []
      ensures base + Join(ws) + SP + w == base + Join(ws + [w])
    {
      assert (ws + [w])[..|ws|] == ws;
      assert base + Join(ws) + SP + w == base + (Join(ws) + SP + w);
    }

    /** The verb, with the blank after it, and the key. */
    method TakeVerbAndKey(c: nat, verb: Bytes, key: Bytes)
      requires c < conns.Length
      modifies conns
      ensures conns[..] == old(conns[..])[c := old(conns[c]).(queued := old(conns[c]).queued + Join([verb, key]))]
    {
      ghost var base := conns[c].queued;
      TakeBuffer(c, verb + SP);
      TakeBuffer(c, key);
      assert [verb, key][..1] == [verb];
      assert base + (verb + SP) + key == base + (verb + SP + key);
    }

    /** " noreply", or the key remembered for the reply; then the count. */
    method TakeReply(c: nat, key: Bytes, noreply: bool, ghost base: Bytes, ghost ws: seq<Bytes>)
      requires c < conns.Length && ws != [] && conns[c].queued == base + Join(ws)
      modifies conns
      ensures var o := old(conns[c]);
              conns[..] == old(conns[..])[c := Outgoing(base + Join(ws + Optional(noreply)),
                                                        if noreply then o.keys else o.keys + [key], o.counter + 1, o.mode)]
    {
      assert ws + [] == ws;
      if noreply {
        TakeWord(c, NOREPLY, base, ws);
      } else {
        conns[c] := conns[c].(keys := conns[c].keys + [key]);
      }
      conns[c] := conns[c].(counter := conns[c].counter + 1);
    }

    static lemma EncodedParts(base: Bytes, cmd: Command)
      requires Typed(cmd)
      ensures base + Join(Words(cmd)) + CRLF + Body(cmd) == base + Encode(cmd)
      ensures !cmd.Store? ==> base + Join(Words(cmd)) + CRLF == base + Encode(cmd)
    {
      Chain2(base, Join(Words(cmd)), CRLF);
      Chain2(base, Join(Words(cmd)) + CRLF, Body(cmd));
    }

    /** The line of a storage command, up to the length of the value or the cas number. */
    method QueueStoreLine(c: nat, cmd: Command) returns (ghost ws: seq<Bytes>)
      requires c < conns.Length && Typed(cmd) && cmd.Store?
      modifies conns
      ensures ws != [] && ws + Optional(cmd.noreply) == Words(cmd)
      ensures conns[..] == old(conns[..])[c := old(conns[c]).(queued := old(conns[c]).queued + Join(ws))]
    {
      ghost var base := conns[c].queued;
      ghost var v, k := Verb(cmd.op), cmd.key;
      ghost var flags, exptime, len := SignedDecimal(cmd.flags), SignedDecimal(cmd.exptime), SignedDecimal(AsSigned(|cmd.value|));
      TakeVerbAndKey(c, Verb(cmd.op), cmd.key);
      TakeNumberWord(c, cmd.flags, base, [v, k]);
      TakeNumberWord(c, cmd.exptime, base, [v, k] + [flags]);
      TakeNumberWord(c, AsSigned(|cmd.value|), base, [v, k] + [flags] + [exptime]);
      ws := [v, k] + [flags] + [exptime] + [len];
      if cmd.op == CasOp {
        TakeNumberWord(c, AsSigned(cmd.cas.value), base, ws);
        ws := ws + [SignedDecimal(AsSigned(cmd.cas.value))];
      }
    }

    method QueueStore(c: nat, cmd: Command)
      requires c < conns.Length && Typed(cmd) && cmd.Store?
      modifies conns
      ensures conns[..] == old(conns[..])[c := Queued(old(conns[c]), cmd)]
    {
      ghost var o := conns[c];
      EncodedParts(o.queued, cmd);
      QueueLine(c, cmd);
      QueueBody(c, cmd);
    }

    /** The line of a storage command, and the reply that is expected. */
    method QueueLine(c: nat, cmd: Command)
      requires c < conns.Length && Typed(cmd) && cmd.Store?
      modifies conns
      ensures var o := old(conns[c]);
              conns[..] == old(conns[..])[c := Outgoing(o.queued + Join(Words(cmd)),
                                                        if cmd.noreply then o.keys else o.keys + [cmd.key],
                                                        o.counter + 1, o.mode)]
    {
      ghost var base, before := conns[c].queued, conns[..];
      ghost var ws := QueueStoreLine(c, cmd);
      ghost var o := conns[c];
      TakeReply(c, cmd.key, cmd.noreply, base, ws);
      SetTwice(before, c, o, conns[c]);
    }

    static lemma SetTwice(os: seq<Outgoing>, c: nat, o: Outgoing, o': Outgoing)
      requires c < |os|
      ensures os[c := o][c := o'] == os[c := o']
    {
    }

    /** The end of the line, the value and its end. */
    method QueueBody(c: nat, cmd: Command)
      requires c < conns.Length && cmd.Store?
      modifies conns
      ensures conns[..] == old(conns[..])[c := old(conns[c]).(queued := old(conns[c]).queued + CRLF + Body(cmd))]
    {
      ghost var base := conns[c].queued;
      TakeBuffer(c, CRLF);
      TakeBuffer(c, cmd.value);
      TakeBuffer(c, CRLF);
      Chain2(base + CRLF, cmd.value, CRLF);
    }

    method QueueDelete(c: nat, cmd: Command)
      requires c < conns.Length && Typed(cmd) && cmd.Delete?
      modifies conns
      ensures conns[..] == old(conns[..])[c := Queued(old(conns[c]), cmd)]
    {
      ghost var base := conns[c].queued;
      TakeVerbAndKey(c, DELETE, cmd.key);
      TakeReply(c, cmd.key, cmd.noreply, base, [DELETE, cmd.key]);
      TakeBuffer(c, CRLF);
      EncodedParts(base, cmd);
    }

    method QueueTouch(c: nat, cmd: Command)
      requires c < conns.Length && Typed(cmd) && cmd.Touch?
      modifies conns
      ensures conns[..] == old(conns[..])[c := Queued(old(conns[c]), cmd)]
    {
      ghost var base := conns[c].queued;
      TakeVerbAndKey(c, TOUCH, cmd.key);
      TakeNumberWord(c, cmd.exptime, base, [TOUCH, cmd.key]);
      ghost var ws := [TOUCH, cmd.key] + [SignedDecimal(cmd.exptime)];
      assert ws == [TOUCH, cmd.key, SignedDecimal(cmd.exptime)];
      TakeReply(c, cmd.key, cmd.noreply, base, ws);
      TakeBuffer(c, CRLF);
      EncodedParts(base, cmd);
    }

    /** One command, buffer by buffer. */
    method QueueCommand(c: nat, cmd: Command)
      requires c < conns.Length && Typed(cmd)
      modifies conns
      ensures conns[..] == old(conns[..])[c := Queued(old(conns[c]), cmd)]
    {
      if cmd.Store? {
        QueueStore(c, cmd);
      } else if cmd.Delete? {
        QueueDelete(c, cmd);
      } else {
        QueueTouch(c, cmd);
      }
    }

    ghost predicate AllPending(ps: seq<Placed<Command>>, noreply: bool)
      reads conns
    {
      OneCall(ps, noreply) && forall c :: 0 <= c < conns.Length ==> conns[c] == Pending(ps, noreply, c)
    }

    /** One round of the loop: the command goes to the connection of its key, unless the
        key is invalid or there is none. */
    method QueueNext(ghost ps: seq<Placed<Command>>, p: Placed<Command>, noreply: bool)
      requires AllPending(ps, noreply) && OneCall(ps + [p], noreply) && Typed(p.item)
      requires p.to.Some? ==> p.to.value < conns.Length
      modifies this`nInvalidKey, conns
      ensures AllPending(ps + [p], noreply)
      ensures nInvalidKey == old(nInvalidKey) + (if ValidKey(p.key) then 0 else 1)
    {
      ghost var before := conns[..];
      var ok := IsValidKey(p.key);
      if !ok {
        nInvalidKey := nInvalidKey + 1;
      } else if p.to.Some? {
        QueueCommand(p.to.value, p.item);
      }
      forall c | 0 <= c < conns.Length ensures conns[c] == Pending(ps + [p], noreply, c) {
        PendingSnoc(ps, p, noreply, c);
        assert conns[..][c] == conns[c] && before[c] == Pending(ps, noreply, c);
      }
    }

    /** The loop of `dispatchStorage`, `dispatchDeletion` and `dispatchTouch`. */
    method QueueCommands(ps: seq<Placed<Command>>, noreply: bool)
      requires Fresh() && OneCall(ps, noreply)
      requires forall i :: 0 <= i < |ps| ==> ps[i].to.Some? ==> ps[i].to.value < conns.Length
      modifies this`nInvalidKey, conns
      ensures nInvalidKey == InvalidKeys(ps) && AllPending(ps, noreply)
    {
      for i := 0 to |ps|
        invariant AllPending(ps[..i], noreply) && nInvalidKey == InvalidKeys(ps[..i])
      {
        OneCallMore(ps, noreply, i);
        RoutedSnoc(ps[..i], ps[i], 0);
        QueueNext(ps[..i], ps[i], noreply);
      }
      assert ps[..|ps|] == ps;
    }

    static lemma OneCallMore(ps: seq<Placed<Command>>, noreply: bool, i: nat)
      requires OneCall(ps, noreply) && i < |ps|
      ensures ps[..i + 1] == ps[..i] + [ps[i]] && OneCall(ps[..i + 1], noreply) && Typed(ps[i].item)
    {
    }

    /** The second loop: who has something to send, and how many replies to expect. */
    method SettleConnections()
      requires nActiveConn == 0 && activeConns == []
      modifies this`nActiveConn, this`activeConns, conns
      ensures forall c :: 0 <= c < conns.Length ==> conns[c] == Settled(old(conns[c]))
      ensures activeConns == Active(old(conns[..]), conns.Length) && nActiveConn == |activeConns|
    {
      ghost var before := conns[..];
      for idx := 0 to conns.Length
        invariant forall c :: 0 <= c < idx ==> conns[c] == Settled(before[c])
        invariant forall c :: idx <= c < conns.Length ==> conns[c] == before[c]
        invariant activeConns == Active(before, idx) && nActiveConn == |activeConns|
      {
        if conns[idx].counter > 0 {
          conns[idx] := conns[idx].(mode := Some(Counting));
          nActiveConn := nActiveConn + 1;
          activeConns := activeConns + [idx];
        }
        conns[idx] := conns[idx].(counter := |conns[idx].keys|);
      }
    }

    method Dispatch(ps: seq<Placed<Command>>, noreply: bool)
      requires Fresh() && OneCall(ps, noreply)
      requires forall i :: 0 <= i < |ps| ==> ps[i].to.Some? ==> ps[i].to.value < conns.Length
      modifies this, conns
      ensures nInvalidKey == InvalidKeys(ps) && nActiveConn == |activeConns|
      ensures forall c :: 0 <= c < conns.Length ==> conns[c] == Settled(Pending(ps, noreply, c))
      ensures activeConns == Busy(ps, conns.Length) && Resettable()
    {
      QueueCommands(ps, noreply);
      ghost var pending := conns[..];
      SettleConnections();
      forall c | 0 <= c < conns.Length ensures pending[c].counter == |Routed(ps, c)| {
        assert pending[c] == Pending(ps, noreply, c);
      }
      ActiveBusy(ps, pending, conns.Length);
      DispatchedResettable(ps, noreply);
    }

    lemma DispatchedResettable(ps: seq<Placed<Command>>, noreply: bool)
      requires OneCall(ps, noreply) && activeConns == Busy(ps, conns.Length)
      requires forall c :: 0 <= c < conns.Length ==> conns[c] == Settled(Pending(ps, noreply, c))
      ensures Resettable()
    {
      BusyBelow(ps, conns.Length);
      forall c | 0 <= c < conns.Length && c !in activeConns ensures conns[c] == IDLE {
        BusyMember(ps, conns.Length, c);
        SettledIdle(ps, noreply, c);
      }
    }

    /** `dispatchRetrieval`, first loop: the verb before the first key of a connection, a
        blank before every key. */
    method QueueKeys(verb: Bytes, ps: seq<Placed<Bytes>>)
      requires Fresh() && (forall i :: 0 <= i < |ps| ==> ps[i].key == ps[i].item)
      requires forall i :: 0 <= i < |ps| ==> ps[i].to.Some? ==> ps[i].to.value < conns.Length
      modifies this`nInvalidKey, conns
      ensures nInvalidKey == InvalidKeys(ps)
      ensures forall c :: 0 <= c < conns.Length ==> conns[c] == Asking(verb, Routed(ps, c))
    {
      for i := 0 to |ps|
        invariant nInvalidKey == InvalidKeys(ps[..i])
        invariant forall c :: 0 <= c < conns.Length ==> conns[c] == Asking(verb, Routed(ps[..i], c))
      {
        var p := ps[i];
        ghost var before := conns[..];
        assert ps[..i + 1] == ps[..i] + [p];
        RoutedSnoc(ps[..i], p, 0);
        var ok := IsValidKey(p.key);
        if !ok {
          nInvalidKey := nInvalidKey + 1;
        } else if p.to.Some? {
          AskFor(p.to.value, verb, p.item, Routed(ps[..i], p.to.value));
        }
        forall c | 0 <= c < conns.Length ensures conns[c] == Asking(verb, Routed(ps[..i + 1], c)) {
          RoutedSnoc(ps[..i], p, c);
          assert conns[..][c] == conns[c] && before[c] == Asking(verb, Routed(ps[..i], c));
          assert Routed(ps[..i], c) + [] == Routed(ps[..i], c);
        }
      }
      assert ps[..|ps|] == ps;
    }

    static lemma AskingMore(verb: Bytes, ks: seq<Bytes>, key: Bytes)
      ensures var o := Asking(verb, ks);
              Asking(verb, ks + [key]) ==
              o.(queued := (if ks == [] then o.queued + verb else o.queued) + SP + key, counter := o.counter + 1)
    {
      assert [verb] + [] == [verb] && [] + verb == verb;
      assert [verb] + (ks + [key]) == ([verb] + ks) + [key];
      JoinSnoc([], [verb] + ks, key);
    }

    method AskFor(c: nat, verb: Bytes, key: Bytes, ghost ks: seq<Bytes>)
      requires c < conns.Length && conns[c] == Asking(verb, ks)
      modifies conns
      ensures conns[..] == old(conns[..])[c := Asking(verb, ks + [key])]
    {
      AskingMore(verb, ks, key);
      conns[c] := conns[c].(counter := conns[c].counter + 1);
      if conns[c].counter == 1 {
        TakeBuffer(c, verb);
      }
      TakeBuffer(c, SP);
      TakeBuffer(c, key);
    }

    method EndLine(c: nat, verb: Bytes, ghost ks: seq<Bytes>)
      requires c < conns.Length && ks != [] && conns[c] == Asking(verb, ks)
      modifies conns
      ensures conns[..] == old(conns[..])[c := Asked(verb, ks)]
    {
      TakeBuffer(c, CRLF);
      conns[c] := conns[c].(mode := Some(EndState));
    }

    /** One round of the second loop. */
    method EndNext(idx: nat, verb: Bytes, ghost ps: seq<Placed<Bytes>>)
      requires idx < conns.Length && conns[idx] == Asking(verb, Routed(ps, idx))
      requires activeConns == Busy(ps, idx) && nActiveConn == |activeConns|
      modifies this`nActiveConn, this`activeConns, conns
      ensures conns[idx] == Asked(verb, Routed(ps, idx))
      ensures forall c :: 0 <= c < conns.Length && c != idx ==> conns[c] == old(conns[c])
      ensures activeConns == Busy(ps, idx + 1) && nActiveConn == |activeConns|
    {
      if conns[idx].counter > 0 {
        ghost var before := conns[..];
        EndLine(idx, verb, Routed(ps, idx));
        assert forall c :: 0 <= c < conns.Length && c != idx ==> conns[..][c] == before[c];
        nActiveConn := nActiveConn + 1;
        activeConns := activeConns + [idx];
      }
    }

    /** Second loop: the line is ended and the answer will end with "END". */
    method DispatchRetrieval(op: RetrievalOp, ps: seq<Placed<Bytes>>)
      requires Fresh() && (forall i :: 0 <= i < |ps| ==> ps[i].key == ps[i].item)
      requires forall i :: 0 <= i < |ps| ==> ps[i].to.Some? ==> ps[i].to.value < conns.Length
      modifies this, conns
      ensures nInvalidKey == InvalidKeys(ps) && nActiveConn == |activeConns| && activeConns == Busy(ps, conns.Length)
      ensures forall c :: 0 <= c < conns.Length ==> conns[c] == Asked(RetrievalVerb(op), Routed(ps, c))
      ensures Resettable()
    {
      var verb := RetrievalVerb(op);
      QueueKeys(verb, ps);
      for idx := 0 to conns.Length
        invariant nInvalidKey == InvalidKeys(ps)
        invariant forall c :: 0 <= c < idx ==> conns[c] == Asked(verb, Routed(ps, c))
        invariant forall c :: idx <= c < conns.Length ==> conns[c] == Asking(verb, Routed(ps, c))
        invariant activeConns == Busy(ps, idx) && nActiveConn == |activeConns|
      {
        EndNext(idx, verb, ps);
      }
      AskedResettable(verb, ps);
    }

    lemma AskedResettable(verb: Bytes, ps: seq<Placed<Bytes>>)
      requires activeConns == Busy(ps, conns.Length)
      requires forall c :: 0 <= c < conns.Length ==> conns[c] == Asked(verb, Routed(ps, c))
      ensures Resettable()
    {
      BusyBelow(ps, conns.Length);
      forall c | 0 <= c < conns.Length && c !in activeConns ensures conns[c] == IDLE {
        BusyMember(ps, conns.Length, c);
      }
    }

    /** `collectMessageResult`: the results of the active connections, one after the other. */
    method CollectMessageResult(parsed: seq<PState>) returns (ms: seq<Message>)
      requires |parsed| == conns.Length && Below(activeConns, conns.Length)
      ensures ms == MessagesOf(parsed, activeConns)
    {
      ms := [];
      for i := 0 to |activeConns|
        invariant ms == MessagesOf(parsed, activeConns[..i])
      {
        assert activeConns[..i + 1][..i] == activeConns[..i];
        ms := ms + parsed[activeConns[i]].messages;
      }
      assert activeConns[..|activeConns|] == activeConns;
    }

    /** `collectRetrievalResult`: the same for values, leaving out those that are not
        complete. */
    method CollectRetrievalResult(parsed: seq<PState>) returns (rs: seq<Retrieval>)
      requires |parsed| == conns.Length && Below(activeConns, conns.Length)
      ensures rs == ValuesOf(parsed, activeConns)
    {
      rs := [];
      for i := 0 to |activeConns|
        invariant rs == ValuesOf(parsed, activeConns[..i])
      {
        assert activeConns[..i + 1][..i] == activeConns[..i];
        var all := parsed[activeConns[i]].retrievals;
        var kept: seq<Retrieval> := [];
        for k := 0 to |all|
          invariant kept == Kept(all[..k])
        {
          assert all[..k + 1][..k] == all[..k];
          if all[k].bytesRemain == 0 {
            kept := kept + [all[k]];
          }
        }
        assert all[..|all|] == all;
        rs := rs + kept;
      }
      assert activeConns[..|activeConns|] == activeConns;
    }

    /** `reset` touches the active connections only; that is enough. */
    method Reset()
      requires Resettable()
      modifies this, conns
      ensures Fresh()
    {
      for i := 0 to |activeConns|
        invariant activeConns == old(activeConns)
        invariant forall c :: 0 <= c < conns.Length ==> c in activeConns[i..] || conns[c] == IDLE
      {
        assert activeConns[i..] == [activeConns[i]] + activeConns[i + 1..];
        conns[activeConns[i]] := IDLE;
      }
      nActiveConn := 0;
      nInvalidKey := 0;
      activeConns := [];
    }
  }

  lemma {:induction false} BusyBelow<T>(ps: seq<Placed<T>>, n: nat)
    ensures Below(Busy(ps, n), n)
    decreases n
  {
    if n > 0 {
      BusyBelow(ps, n - 1);
    }
  }

  /** A connection is active if and only if something goes to it. */
  lemma {:induction false} BusyMember<T>(ps: seq<Placed<T>>, n: nat, c: nat)
    requires c < n
    ensures c in Busy(ps, n) <==> Routed(ps, c) != []
    decreases n
  {
    BusyBelow(ps, n - 1);
    if c < n - 1 {
      BusyMember(ps, n - 1, c);
    }
  }

  // ---- what the servers see, and what the caller gets back ----

  /** Storage framing: the bytes queued for a connection are read by a server as exactly
      the commands routed to it, in order, if and only if the protocol can express them. */
  lemma CommandFraming(ps: seq<Placed<Command>>, noreply: bool, c: nat)
    requires OneCall(ps, noreply)
    ensures var o := Settled(Pending(ps, noreply, c));
            DecodeAll(o.queued) == Some(Routed(ps, c)) <==> AllFit(Routed(ps, c))
  {
    RoutedValid(ps, noreply, c);
    Framing(Routed(ps, c));
  }

  lemma {:induction false} RoutedKeysValid(ps: seq<Placed<Bytes>>, c: nat)
    requires forall i :: 0 <= i < |ps| ==> ps[i].key == ps[i].item
    ensures forall i :: 0 <= i < |Routed(ps, c)| ==> ValidKey(Routed(ps, c)[i])
  {
    if ps != [] {
      RoutedKeysValid(ps[..|ps| - 1], c);
      assert Last(ps).key == Last(ps).item;
    }
  }

  /** One line, with its end. */
  predicate IsLine(q: Bytes) {
    var n := IndexOf('\n', q);
    0 < n == |q| - 1 && q[n - 1] == '\r'
  }

  function LineWords(q: Bytes): seq<Bytes>
    requires IsLine(q)
  {
    Split(q[..|q| - 2])
  }

  /** `q` is one line, the words of which are read as the operation and exactly these keys if
      and only if none of them is empty. */
  predicate Frames(q: Bytes, op: RetrievalOp, ks: seq<Bytes>) {
    && IsLine(q) && LineWords(q) == [RetrievalVerb(op)] + ks
    && (ReadRetrieval([RetrievalVerb(op)] + ks) == Some((op, ks)) <==> [] !in ks)
  }

  /** What is queued for a retrieval frames the operation and the keys routed to the
      connection. */
  lemma RetrievalFraming(op: RetrievalOp, ps: seq<Placed<Bytes>>, c: nat)
    requires (forall i :: 0 <= i < |ps| ==> ps[i].key == ps[i].item) && Routed(ps, c) != []
    ensures Frames(Asked(RetrievalVerb(op), Routed(ps, c)).queued, op, Routed(ps, c))
  {
    var ks := Routed(ps, c);
    RoutedKeysValid(ps, c);
    AskedLine(RetrievalVerb(op), ks);
    KeysFramed(op, ks, Asked(RetrievalVerb(op), ks).queued);
  }

  lemma AskedLine(verb: Bytes, ks: seq<Bytes>)
    requires ks != []
    ensures Asked(verb, ks).queued == Join([verb] + ks) + CRLF
  {
  }

  lemma KeysFramed(op: RetrievalOp, ks: seq<Bytes>, q: Bytes)
    requires ks != [] && (forall i :: 0 <= i < |ks| ==> ValidKey(ks[i])) && q == Join([RetrievalVerb(op)] + ks) + CRLF
    ensures Frames(q, op, ks)
  {
    VerbClean(op);
    var verb := RetrievalVerb(op);
    LineRead(verb, ks, q);
    WordsRead(op, ks);
    FramesOf(q, op, ks, [verb] + ks);
  }

  lemma VerbClean(op: RetrievalOp)
    ensures Clean(RetrievalVerb(op))
  {
  }

  lemma FramesOf(q: Bytes, op: RetrievalOp, ks: seq<Bytes>, ws: seq<Bytes>)
    requires IsLine(q) && LineWords(q) == ws == [RetrievalVerb(op)] + ks
    requires ReadRetrieval(ws) == Some((op, ks)) <==> [] !in ks
    ensures Frames(q, op, ks)
  {
  }

  lemma WordsRead(op: RetrievalOp, ks: seq<Bytes>)
    requires ks != []
    ensures ReadRetrieval([RetrievalVerb(op)] + ks) == Some((op, ks)) <==> [] !in ks
  {
    var ws := [RetrievalVerb(op)] + ks;
    assert ws[1..] == ks;
  }

  lemma LineRead(verb: Bytes, ks: seq<Bytes>, q: Bytes)
    requires Clean(verb) && ks != [] && forall i :: 0 <= i < |ks| ==> ValidKey(ks[i])
    requires q == Join([verb] + ks) + CRLF
    ensures IsLine(q) && LineWords(q) == [verb] + ks
  {
    var ws := [verb] + ks;
    assert AllClean(ws);
    SplitJoin(ws);
    JoinNoLineEnd(ws);
    LineFound(Join(ws), []);
    assert Join(ws) + CRLF + [] == q;
  }

  function KeysOfMessages(ms: seq<Message>): (ks: seq<Option<Bytes>>)
    ensures |ks| == |ms|
  {
    seq(|ms|, i requires 0 <= i < |ms| => ms[i].key)
  }

  function SomeKeys(cs: seq<Command>): (ks: seq<Option<Bytes>>)
    ensures |ks| == |cs|
  {
    seq(|cs|, i requires 0 <= i < |cs| => Some(cs[i].key))
  }

  /** What a connection that replies are expected from tells its parser. */
  lemma ReadyForReplies(ps: seq<Placed<Command>>, c: nat)
    requires OneCall(ps, false) && Routed(ps, c) != []
    ensures var o := Settled(Pending(ps, false, c));
            o.mode == Some(Counting) && o.keys == KeysOf(Routed(ps, c)) && o.counter == |Routed(ps, c)|
  {
  }

  /** The results of a connection that was waited for: what its stream is parsed to, in the
      mode and for the keys that it was given.  Sealed against unfolding. */
  ghost predicate Answered(o: Outgoing, stream: Bytes, parsed: PState) {
    forall t: bool :: AnsweredFor(o, stream, parsed, t)
  }

  ghost predicate AnsweredFor(o: Outgoing, stream: Bytes, parsed: PState, t: bool) {
    && o.mode.Some?
    && var r := Process(Config(o.mode.value, o.keys), INITIAL, stream);
    r.err == Ok && r.ps == parsed && parsed.numbers == []
  }

  lemma ConnectionAttribution(ps: seq<Placed<Command>>, c: nat, stream: Bytes, parsed: PState)
    requires OneCall(ps, false) && Routed(ps, c) != [] && Answered(Settled(Pending(ps, false, c)), stream, parsed)
    ensures KeysOfMessages(parsed.messages) == SomeKeys(Routed(ps, c))
  {
    assert AnsweredFor(Settled(Pending(ps, false, c)), stream, parsed, true);
    ReadyForReplies(ps, c);
    OnePerKey(Config(Counting, KeysOf(Routed(ps, c))), stream);
  }

  lemma KeysSum(a: seq<Message>, b: seq<Message>, cs: seq<Command>, ds: seq<Command>)
    requires KeysOfMessages(a) == SomeKeys(cs) && KeysOfMessages(b) == SomeKeys(ds)
    ensures KeysOfMessages(a + b) == SomeKeys(cs + ds)
  {
    assert KeysOfMessages(a + b) == KeysOfMessages(a) + KeysOfMessages(b);
    assert SomeKeys(cs + ds) == SomeKeys(cs) + SomeKeys(ds);
  }

  lemma MessagesSnoc(parsed: seq<PState>, active: seq<nat>, c: nat)
    requires Below(active, |parsed|) && c < |parsed|
    ensures MessagesOf(parsed, active + [c]) == MessagesOf(parsed, active) + parsed[c].messages
  {
    assert (active + [c])[..|active|] == active;
  }

  /** Attribution over all connections: `os` is what `dispatchStorage`, `dispatchDeletion` or
      `dispatchTouch` has left in the first `n` connections.  When the answers of the active
      ones have been parsed, the collected results carry the keys of the commands, connection
      by connection and in the order they were sent; so, by `Partition`, every command that
      could be routed has exactly one result under its key. */
  lemma {:induction false} Attribution(ps: seq<Placed<Command>>, os: seq<Outgoing>, n: nat, streams: seq<Bytes>,
                                       parsed: seq<PState>)
    requires OneCall(ps, false) && n <= |os| && (forall c :: 0 <= c < n ==> os[c] == Settled(Pending(ps, false, c)))
    requires AllAnswered(os, Busy(ps, n), streams, parsed)
    ensures Below(Busy(ps, n), |parsed|)
    ensures KeysOfMessages(MessagesOf(parsed, Busy(ps, n))) == SomeKeys(Spread(ps, n))
    decreases n
  {
    BusyBelow(ps, n);
    if n > 0 {
      var c := n - 1;
      BusyMember(ps, n, c);
      BusyGrows(ps, c);
      Attribution(ps, os, c, streams, parsed);
      AttributionNext(ps, c, streams[c], parsed, Busy(ps, c));
    }
  }

  lemma BusyGrows<T>(ps: seq<Placed<T>>, n: nat)
    ensures forall c <- Busy(ps, n) :: c in Busy(ps, n + 1)
  {
  }

  /** Every connection that something was sent to has been waited for. */
  ghost predicate AllAnswered(os: seq<Outgoing>, active: seq<nat>, streams: seq<Bytes>, parsed: seq<PState>) {
    && |os| == |streams| == |parsed|
    && forall c <- active :: c < |os| ==> Answered(os[c], streams[c], parsed[c])
  }

  lemma AttributionNext(ps: seq<Placed<Command>>, c: nat, stream: Bytes, parsed: seq<PState>, active: seq<nat>)
    requires OneCall(ps, false) && c < |parsed|
    requires Routed(ps, c) != [] ==> Answered(Settled(Pending(ps, false, c)), stream, parsed[c])
    requires active == Busy(ps, c) && Below(active, |parsed|)
    requires KeysOfMessages(MessagesOf(parsed, active)) == SomeKeys(Spread(ps, c))
    ensures Below(Busy(ps, c + 1), |parsed|)
    ensures KeysOfMessages(MessagesOf(parsed, Busy(ps, c + 1))) == SomeKeys(Spread(ps, c + 1))
  {
    var before, here := Spread(ps, c), Routed(ps, c);
    assert Spread(ps, c + 1) == before + here;
    if here != [] {
      assert Busy(ps, c + 1) == active + [c];
      ConnectionAttribution(ps, c, stream, parsed[c]);
      MessagesSnoc(parsed, active, c);
      KeysSum(MessagesOf(parsed, active), parsed[c].messages, before, here);
    } else {
      assert before + here == before;
      assert Busy(ps, c + 1) == active;
    }
  }

  /** A connection that no reply is expected from waits for nothing: the parser ends before
      it has looked at a byte. */
  lemma NoReplyExpected(ps: seq<Placed<Command>>, c: nat, stream: Bytes)
    requires OneCall(ps, true) && Routed(ps, c) != []
    ensures var o := Settled(Pending(ps, true, c));
            && o.counter == 0 && o.mode.Some?
            && Process(Config(o.mode.value, o.keys), INITIAL, stream) == Result(Ok, INITIAL, stream)
  {
  }

  // ---- what the servers sent, connection by connection ----

  /** The results of a connection that was waited for: its stream is `text`.  Sealed. */
  ghost predicate ParsedFrom(o: Outgoing, text: Bytes, parsed: PState) {
    forall t: bool :: ParsedFromFor(o, text, parsed, t)
  }

  ghost predicate ParsedFromFor(o: Outgoing, text: Bytes, parsed: PState, t: bool) {
    o.mode.Some? && parsed == Process(Config(o.mode.value, o.keys), INITIAL, text).ps
  }

  /** Commands that were asked for replies get messages of these kinds. */
  predicate MessagesFit(cs: seq<Command>, kinds: seq<MessageKind>) {
    |kinds| == |cs| && forall i :: 0 <= i < |kinds| ==> kinds[i] != MsgOk
  }

  lemma MessagesConform(keys: seq<Bytes>, kinds: seq<MessageKind>)
    requires |kinds| == |keys| && forall i :: 0 <= i < |kinds| ==> kinds[i] != MsgOk
    ensures Conforming(Config(Counting, keys), MessageReplies(kinds))
  {
    var rs := MessageReplies(kinds);
    assert forall i :: 0 <= i < |rs| ==> rs[i] == Msg(kinds[i]);
  }

  lemma ConnectionMessages(ps: seq<Placed<Command>>, c: nat, kinds: seq<MessageKind>, parsed: PState)
    requires OneCall(ps, false) && Routed(ps, c) != [] && MessagesFit(Routed(ps, c), kinds)
    requires ParsedFrom(Settled(Pending(ps, false, c)), PrintAll(MessageReplies(kinds)), parsed)
    ensures parsed.messages == MessagesFor(kinds, KeysOf(Routed(ps, c)))
  {
    var keys := KeysOf(Routed(ps, c));
    var cfg, rs := Config(Counting, keys), MessageReplies(kinds);
    assert ParsedFromFor(Settled(Pending(ps, false, c)), PrintAll(rs), parsed, true);
    ReadyForReplies(ps, c);
    MessagesConform(keys, kinds);
    WholeAnswer(cfg, rs);
    DeliveredMessages(cfg, INITIAL, kinds);
    assert keys[0..0 + |kinds|] == keys;
    assert INITIAL.messages + MessagesFor(kinds, keys) == MessagesFor(kinds, keys);
  }

  /** What comes of the first `n` connections, one after the other: for each command routed
      to a connection, the kind of its reply and its key. */
  function MessagesSent(ps: seq<Placed<Command>>, kinds: seq<seq<MessageKind>>, n: nat): seq<Message>
    requires AllFitKinds(ps, kinds, n)
  {
    if n == 0 then []
    else MessagesSent(ps, kinds, n - 1) + MessagesFor(kinds[n - 1], KeysOf(Routed(ps, n - 1)))
  }

  predicate AllFitKinds(ps: seq<Placed<Command>>, kinds: seq<seq<MessageKind>>, n: nat) {
    n <= |kinds| && forall c :: 0 <= c < n ==> MessagesFit(Routed(ps, c), kinds[c])
  }

  /** Every active connection has been sent messages of these kinds. */
  ghost predicate AllGotMessages(os: seq<Outgoing>, active: seq<nat>, kinds: seq<seq<MessageKind>>, parsed: seq<PState>) {
    && |os| == |kinds| == |parsed|
    && forall c <- active :: c < |os| ==> ParsedFrom(os[c], PrintAll(MessageReplies(kinds[c])), parsed[c])
  }

  lemma BusyNext<T>(ps: seq<Placed<T>>, c: nat)
    ensures Busy(ps, c + 1) == if Routed(ps, c) != [] then Busy(ps, c) + [c] else Busy(ps, c)
  {
    NothingAdded(Busy(ps, c));
  }

  lemma MessagesSentNext(ps: seq<Placed<Command>>, kinds: seq<seq<MessageKind>>, c: nat, here: seq<Message>)
    requires AllFitKinds(ps, kinds, c + 1)
    requires Routed(ps, c) != [] ==> |kinds[c]| == |Routed(ps, c)| && here == MessagesFor(kinds[c], KeysOf(Routed(ps, c)))
    ensures MessagesSent(ps, kinds, c + 1) ==
            if Routed(ps, c) != [] then MessagesSent(ps, kinds, c) + here else MessagesSent(ps, kinds, c)
  {
    assert MessagesFit(Routed(ps, c), kinds[c]);
    NothingAdded(MessagesSent(ps, kinds, c));
  }

  /** Connection `c` comes after the active ones, if it is active. */
  lemma MessagesAdded(parsed: seq<PState>, active: seq<nat>, c: nat, joins: bool, active': seq<nat>, sent: seq<Message>)
    requires Below(active, |parsed|) && c < |parsed| && active' == if joins then active + [c] else active
    requires sent == if joins then MessagesOf(parsed, active) + parsed[c].messages else MessagesOf(parsed, active)
    ensures Below(active', |parsed|) && MessagesOf(parsed, active') == sent
  {
    MessagesSnoc(parsed, active, c);
  }

  lemma MessagesHere(ps: seq<Placed<Command>>, kinds: seq<seq<MessageKind>>, c: nat, parsed: PState)
    requires OneCall(ps, false) && AllFitKinds(ps, kinds, c + 1) && Routed(ps, c) != []
    requires ParsedFrom(Settled(Pending(ps, false, c)), PrintAll(MessageReplies(kinds[c])), parsed)
    ensures |kinds[c]| == |Routed(ps, c)| && parsed.messages == MessagesFor(kinds[c], KeysOf(Routed(ps, c)))
  {
    assert MessagesFit(Routed(ps, c), kinds[c]);
    ConnectionMessages(ps, c, kinds[c], parsed);
  }

  lemma MessagesNext(ps: seq<Placed<Command>>, kinds: seq<seq<MessageKind>>, c: nat, parsed: seq<PState>, active: seq<nat>)
    requires OneCall(ps, false) && c < |parsed| && AllFitKinds(ps, kinds, c + 1)
    requires Routed(ps, c) != [] ==>
               ParsedFrom(Settled(Pending(ps, false, c)), PrintAll(MessageReplies(kinds[c])), parsed[c])
    requires active == Busy(ps, c) && Below(active, |parsed|) && MessagesOf(parsed, active) == MessagesSent(ps, kinds, c)
    ensures Below(Busy(ps, c + 1), |parsed|)
    ensures MessagesOf(parsed, Busy(ps, c + 1)) == MessagesSent(ps, kinds, c + 1)
  {
    var here := parsed[c].messages;
    if Routed(ps, c) != [] {
      MessagesHere(ps, kinds, c, parsed[c]);
    }
    BusyNext(ps, c);
    MessagesSentNext(ps, kinds, c, here);
    MessagesAdded(parsed, active, c, Routed(ps, c) != [], Busy(ps, c + 1), MessagesSent(ps, kinds, c + 1));
  }

  /** When each active connection has been sent one message for each of its commands, the
      results collected are these messages, each with its kind and the key of its command,
      connection by connection. */
  lemma {:induction false} MessageAttribution(ps: seq<Placed<Command>>, os: seq<Outgoing>, n: nat,
                                              kinds: seq<seq<MessageKind>>, parsed: seq<PState>)
    requires OneCall(ps, false) && n <= |os| && (forall c :: 0 <= c < n ==> os[c] == Settled(Pending(ps, false, c)))
    requires AllFitKinds(ps, kinds, n) && AllGotMessages(os, Busy(ps, n), kinds, parsed)
    ensures Below(Busy(ps, n), |parsed|) && MessagesOf(parsed, Busy(ps, n)) == MessagesSent(ps, kinds, n)
    decreases n
  {
    BusyBelow(ps, n);
    if n > 0 {
      var c := n - 1;
      BusyMember(ps, n, c);
      BusyGrows(ps, c);
      MessageAttribution(ps, os, c, kinds, parsed);
      MessagesNext(ps, kinds, c, parsed, Busy(ps, c));
    }
  }

  /** A whole answer to a retrieval: its end is told by its last line. */
  predicate WholeRetrieval(answer: seq<Reply>) {
    Conforming(Config(EndState, []), answer)
  }

  lemma ConnectionValues(verb: Bytes, ks: seq<Bytes>, answer: seq<Reply>, parsed: PState)
    requires ks != [] && WholeRetrieval(answer) && ParsedFrom(Asked(verb, ks), PrintAll(answer), parsed)
    ensures Kept(parsed.retrievals) == Sent(answer)
  {
    var cfg := Config(EndState, []);
    assert ParsedFromFor(Asked(verb, ks), PrintAll(answer), parsed, true);
    WholeAnswer(cfg, answer);
    DeliveredValues(cfg, INITIAL, answer);
    assert INITIAL.retrievals + Sent(answer) == Sent(answer);
    SentWhole(answer);
    KeptAll(Sent(answer));
  }

  lemma ValuesSnoc(parsed: seq<PState>, active: seq<nat>, c: nat)
    requires Below(active, |parsed|) && c < |parsed|
    ensures ValuesOf(parsed, active + [c]) == ValuesOf(parsed, active) + Kept(parsed[c].retrievals)
  {
    assert (active + [c])[..|active|] == active;
  }

  /** The values sent by the first `n` connections that were asked, one after the other. */
  function AllSent(ps: seq<Placed<Bytes>>, answers: seq<seq<Reply>>, n: nat): seq<Retrieval>
    requires n <= |answers|
  {
    if n == 0 then []
    else AllSent(ps, answers, n - 1) + (if Routed(ps, n - 1) != [] then Sent(answers[n - 1]) else [])
  }

  /** Every active connection has been sent such an answer. */
  ghost predicate AllGotValues(os: seq<Outgoing>, active: seq<nat>, answers: seq<seq<Reply>>, parsed: seq<PState>) {
    && |os| == |answers| == |parsed|
    && forall c <- active :: c < |os| ==> WholeRetrieval(answers[c]) && ParsedFrom(os[c], PrintAll(answers[c]), parsed[c])
  }

  lemma AllSentNext(ps: seq<Placed<Bytes>>, answers: seq<seq<Reply>>, c: nat)
    requires c < |answers|
    ensures AllSent(ps, answers, c + 1) ==
            if Routed(ps, c) != [] then AllSent(ps, answers, c) + Sent(answers[c]) else AllSent(ps, answers, c)
  {
    NothingAdded(AllSent(ps, answers, c));
  }

  lemma ValuesAdded(parsed: seq<PState>, active: seq<nat>, c: nat, joins: bool, active': seq<nat>, sent: seq<Retrieval>)
    requires Below(active, |parsed|) && c < |parsed| && active' == if joins then active + [c] else active
    requires sent == if joins then ValuesOf(parsed, active) + Kept(parsed[c].retrievals) else ValuesOf(parsed, active)
    ensures Below(active', |parsed|) && ValuesOf(parsed, active') == sent
  {
    ValuesSnoc(parsed, active, c);
  }

  lemma ValuesNext(verb: Bytes, ps: seq<Placed<Bytes>>, answers: seq<seq<Reply>>, c: nat, parsed: seq<PState>, active: seq<nat>)
    requires c < |parsed| == |answers|
    requires Routed(ps, c) != [] ==>
               WholeRetrieval(answers[c]) && ParsedFrom(Asked(verb, Routed(ps, c)), PrintAll(answers[c]), parsed[c])
    requires active == Busy(ps, c) && Below(active, |parsed|) && ValuesOf(parsed, active) == AllSent(ps, answers, c)
    ensures Below(Busy(ps, c + 1), |parsed|) && ValuesOf(parsed, Busy(ps, c + 1)) == AllSent(ps, answers, c + 1)
  {
    BusyNext(ps, c);
    AllSentNext(ps, answers, c);
    if Routed(ps, c) != [] {
      ConnectionValues(verb, Routed(ps, c), answers[c], parsed[c]);
    }
    ValuesAdded(parsed, active, c, Routed(ps, c) != [], Busy(ps, c + 1), AllSent(ps, answers, c + 1));
  }

  /** When each active connection has been sent a whole answer, the results collected are
      exactly the values in these answers, each with all its data, connection by connection.
      `os` is what `dispatchRetrieval` has left in the first `n` connections. */
  lemma {:induction false} RetrievalAttribution(verb: Bytes, ps: seq<Placed<Bytes>>, os: seq<Outgoing>, n: nat,
                                                answers: seq<seq<Reply>>, parsed: seq<PState>)
    requires n <= |os| && (forall c :: 0 <= c < n ==> os[c] == Asked(verb, Routed(ps, c)))
    requires AllGotValues(os, Busy(ps, n), answers, parsed)
    ensures Below(Busy(ps, n), |parsed|) && ValuesOf(parsed, Busy(ps, n)) == AllSent(ps, answers, n)
    decreases n
  {
    BusyBelow(ps, n);
    if n > 0 {
      var c := n - 1;
      BusyMember(ps, n, c);
      BusyGrows(ps, c);
      RetrievalAttribution(verb, ps, os, c, answers, parsed);
      ValuesNext(verb, ps, answers, c, parsed, Busy(ps, c));
    }
  }
}
