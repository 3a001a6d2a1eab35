/** One connection: the command queue, the receive buffer and the parser together, and
    what a retry restores.  The socket is a nondeterministic number of bytes. */
module Connections {
  import opened Octets
  import opened BlockQueue
  import opened BufferReaders
  import opened BufferWriters
  import opened ReplyMachine
  import opened Chunking
  import opened Replies
  import opened Receiving
  import opened ParserTokens
  import opened Parsers

  // ---- one connection on values ----

  /** `all`: the commands queued; `unsent`: what the kernel has not accepted of them; `wire`:
      what it was given since the last rewind; then the parser and the bytes received but not
      parsed. */
  datatype Conn = Conn(cfg: Config, all: Bytes, unsent: Bytes, wire: Bytes, ps: PState, unread: Bytes)

  datatype Op = SendOp(accepted: nat) | RecvOp(chunk: Bytes) | RewindOp

  predicate Proper(c: Conn) {
    c.wire + c.unsent == c.all && WellFormed(c.ps)
  }

  /** A connection with its commands queued and nothing sent or received. */
  function Dispatched(cfg: Config, all: Bytes): (c: Conn)
    ensures Proper(c)
  {
    Conn(cfg, all, all, [], INITIAL, [])
  }

  function Min(a: nat, b: nat): nat {
    if a < b then a else b
  }

  function Exec(c: Conn, op: Op): (r: Conn)
    requires Proper(c)
    ensures Proper(r) && r.cfg == c.cfg && r.all == c.all
  {
    match op
    case SendOp(n) =>
      var k := Min(n, |c.unsent|);
      assert c.wire + c.unsent[..k] + c.unsent[k..] == c.wire + c.unsent;
      c.(wire := c.wire + c.unsent[..k], unsent := c.unsent[k..])
    case RecvOp(chunk) =>
      var r := Process(c.cfg, c.ps, c.unread + chunk);
      c.(ps := r.ps, unread := r.rest)
    case RewindOp => Dispatched(c.cfg, c.all)
  }

  lemma ExecRewind(c: Conn)
    requires Proper(c)
    ensures Exec(c, RewindOp) == Dispatched(c.cfg, c.all)
  {
  }

  function ExecAll(c: Conn, ops: seq<Op>): (r: Conn)
    requires Proper(c)
    ensures Proper(r) && r.cfg == c.cfg && r.all == c.all
    decreases |ops|
  {
    if ops == [] then c else ExecAll(Exec(c, ops[0]), ops[1..])
  }

  lemma {:induction false} ExecSum(c: Conn, a: seq<Op>, b: seq<Op>)
    requires Proper(c)
    ensures ExecAll(c, a + b) == ExecAll(ExecAll(c, a), b)
    decreases |a|
  {
    if a == [] {
      assert a + b == b;
    } else {
      assert (a + b)[1..] == a[1..] + b;
      ExecSum(Exec(c, a[0]), a[1..], b);
    }
  }

  /** Attempts, each ended by a rewind. */
  function Attempts(attempts: seq<seq<Op>>): seq<Op> {
    if attempts == [] then [] else attempts[0] + ([RewindOp] + Attempts(attempts[1..]))
  }

  /** Retry transparency: failed attempts leave no trace.  Whatever they sent and received,
      in pieces of any size, what follows is what would have happened without them. */
  lemma {:induction false} RetryTransparent(cfg: Config, all: Bytes, attempts: seq<seq<Op>>, last: seq<Op>)
    ensures var c := Dispatched(cfg, all); ExecAll(c, Attempts(attempts) + last) == ExecAll(c, last)
    decreases |attempts|
  {
    var c := Dispatched(cfg, all);
    if attempts == [] {
      assert Attempts(attempts) + last == last;
    } else {
      var a, rest := attempts[0], Attempts(attempts[1..]);
      assert Attempts(attempts) + last == a + ([RewindOp] + (rest + last));
      ExecSum(c, a, [RewindOp] + (rest + last));
      assert ([RewindOp] + (rest + last))[1..] == rest + last;
      RetryTransparent(cfg, all, attempts[1..], last);
    }
  }

  // ---- a complete attempt ----

  function Accepted(op: Op): nat {
    match op case SendOp(n) => n case _ => 0
  }

  function TotalSent(ops: seq<Op>): nat {
    if ops == [] then 0 else Accepted(ops[0]) + TotalSent(ops[1..])
  }

  function Received(ops: seq<Op>): seq<Bytes> {
    if ops == [] then [] else (match ops[0] case RecvOp(chunk) => [chunk] case _ => []) + Received(ops[1..])
  }

  predicate NoRewind(ops: seq<Op>) {
    forall i :: 0 <= i < |ops| ==> !ops[i].RewindOp?
  }

  lemma SendOne(c: Conn, op: Op)
    requires Proper(c) && !op.RewindOp?
    ensures |c.wire| <= |c.all| && |Exec(c, op).wire| == Min(|c.all|, |c.wire| + Accepted(op))
  {
    assert |c.wire| + |c.unsent| == |c.all|;
  }

  lemma CappedSum(all: nat, w: nat, w': nat, w'': nat, a: nat, t: nat, total: nat)
    requires w' == Min(all, w + a) && w'' == Min(all, w' + t) && total == a + t
    ensures w'' == Min(all, w + total)
  {
  }

  lemma ExecFirst(c: Conn, ops: seq<Op>)
    requires Proper(c) && ops != []
    ensures ExecAll(c, ops) == ExecAll(Exec(c, ops[0]), ops[1..])
    ensures TotalSent(ops) == Accepted(ops[0]) + TotalSent(ops[1..])
  {
  }

  lemma {:induction false} SendsAdd(c: Conn, ops: seq<Op>)
    requires Proper(c) && NoRewind(ops)
    ensures |ExecAll(c, ops).wire| == Min(|c.all|, |c.wire| + TotalSent(ops))
    decreases |ops|
  {
    if ops == [] {
      SendOne(c, SendOp(0));
    } else {
      var c', op, rest := Exec(c, ops[0]), ops[0], ops[1..];
      ExecFirst(c, ops);
      SendOne(c, op);
      SendsAdd(c', rest);
      CappedSum(|c.all|, |c.wire|, |c'.wire|, |ExecAll(c', rest).wire|, Accepted(op), TotalSent(rest), TotalSent(ops));
    }
  }

  /** What the receives of `ops` make of a parser and its unread bytes. */
  function Parsed(cfg: Config, ps: PState, unread: Bytes, chunks: seq<Bytes>): (r: (PState, Bytes))
    requires WellFormed(ps)
  {
    if chunks == [] then (ps, unread)
    else var f := Feed(cfg, ps, unread, chunks).result; (f.ps, f.rest)
  }

  predicate AllTaken(cfg: Config, ps: PState, unread: Bytes, chunks: seq<Bytes>)
    requires WellFormed(ps)
  {
    chunks != [] ==> Feed(cfg, ps, unread, chunks).taken == |chunks|
  }

  lemma ParsedFirst(c: Conn, chunk: Bytes, chunks: seq<Bytes>)
    requires Proper(c) && AllTaken(c.cfg, c.ps, c.unread, [chunk] + chunks)
    ensures var c' := Exec(c, RecvOp(chunk));
            && AllTaken(c.cfg, c'.ps, c'.unread, chunks)
            && Parsed(c.cfg, c.ps, c.unread, [chunk] + chunks) == Parsed(c.cfg, c'.ps, c'.unread, chunks)
  {
    assert ([chunk] + chunks)[1..] == chunks;
    var r := Process(c.cfg, c.ps, c.unread + chunk);
    var f := Feed(c.cfg, c.ps, c.unread, [chunk] + chunks);
    assert f == if r.err == Incomplete then var g := Feed(c.cfg, r.ps, r.rest, chunks); Fed(g.result, g.taken + 1)
                else Fed(r, 1);
  }

  lemma {:induction false} ReceiptsAdd(c: Conn, ops: seq<Op>)
    requires Proper(c) && NoRewind(ops) && AllTaken(c.cfg, c.ps, c.unread, Received(ops))
    ensures var r := ExecAll(c, ops); (r.ps, r.unread) == Parsed(c.cfg, c.ps, c.unread, Received(ops))
    decreases |ops|
  {
    if ops != [] {
      var c', rest := Exec(c, ops[0]), Received(ops[1..]);
      if ops[0].RecvOp? {
        assert Received(ops) == [ops[0].chunk] + rest;
        ParsedFirst(c, ops[0].chunk, rest);
      } else {
        assert Received(ops) == [] + rest == rest;
      }
      ReceiptsAdd(c', ops[1..]);
    }
  }

  /** Sending and receiving do not interfere. */
  lemma SendsAndReceipts(c: Conn, ops: seq<Op>)
    requires Proper(c) && NoRewind(ops) && AllTaken(c.cfg, c.ps, c.unread, Received(ops))
    ensures var r := ExecAll(c, ops);
            && |r.wire| == Min(|c.all|, |c.wire| + TotalSent(ops)) && r.wire == c.all[..|r.wire|]
            && (r.ps, r.unread) == Parsed(c.cfg, c.ps, c.unread, Received(ops))
  {
    SendsAdd(c, ops);
    ReceiptsAdd(c, ops);
    var r := ExecAll(c, ops);
    assert r.all == r.wire + r.unsent;
  }

  lemma WholeWire(c: Conn)
    requires Proper(c) && |c.wire| == |c.all|
    ensures c.wire == c.all
  {
    assert c.unsent == [] && c.wire + [] == c.wire;
  }

  lemma ParsedWhole(cfg: Config, chunks: seq<Bytes>, whole: Result)
    requires chunks != [] && Feed(cfg, INITIAL, [], chunks) == Fed(whole, |chunks|)
    ensures AllTaken(cfg, INITIAL, [], chunks) && Parsed(cfg, INITIAL, [], chunks) == (whole.ps, whole.rest)
  {
  }

  lemma AttemptEnds(cfg: Config, all: Bytes, ops: seq<Op>, whole: Result)
    requires NoRewind(ops) && TotalSent(ops) >= |all| && Received(ops) != []
    requires Feed(cfg, INITIAL, [], Received(ops)) == Fed(whole, |Received(ops)|)
    ensures var c := ExecAll(Dispatched(cfg, all), ops);
            c.wire == all && c.ps == whole.ps && c.unread == whole.rest
  {
    var c := Dispatched(cfg, all);
    ParsedWhole(cfg, Received(ops), whole);
    SendsAdd(c, ops);
    ReceiptsAdd(c, ops);
    WholeWire(ExecAll(c, ops));
  }

  /** An attempt that sends everything and receives a complete answer, both in pieces of
      any size, has put exactly the queued commands on the wire and has the results of
      that answer, under the keys of the request. */
  lemma CompleteAttempt(cfg: Config, all: Bytes, ops: seq<Op>, answer: seq<Reply>)
    requires NoRewind(ops) && TotalSent(ops) >= |all|
    requires Conforming(cfg, answer) && Received(ops) != [] && NoneEmpty(Received(ops))
    requires Flatten(Received(ops)) == PrintAll(answer)
    ensures var c := ExecAll(Dispatched(cfg, all), ops);
            c.wire == all && c.ps == DeliverAll(cfg, INITIAL, answer) && c.unread == []
  {
    AnswerInChunks(cfg, answer, Received(ops));
    AttemptEnds(cfg, all, ops, Result(FinalError(answer), DeliverAll(cfg, INITIAL, answer), []));
  }

  /** The same after any number of failed attempts. */
  lemma RetriedRequest(cfg: Config, all: Bytes, attempts: seq<seq<Op>>, last: seq<Op>, answer: seq<Reply>)
    requires NoRewind(last) && TotalSent(last) >= |all|
    requires Conforming(cfg, answer) && Received(last) != [] && NoneEmpty(Received(last))
    requires Flatten(Received(last)) == PrintAll(answer)
    ensures var c := ExecAll(Dispatched(cfg, all), Attempts(attempts) + last);
            c.wire == all && c.ps == DeliverAll(cfg, INITIAL, answer) && c.unread == []
  {
    RetryTransparent(cfg, all, attempts, last);
    CompleteAttempt(cfg, all, last, answer);
  }

  // ---- the object ----

  const MC_UIO_MAXIOV := 1024

  class Connection {
    const reader: BufferReader
    const writer: BufferWriter
    const parser: PacketParser
    ghost var wire: Bytes  // what the kernel has accepted since the last rewind

    ghost predicate Valid()
      reads this, reader, reader.Repr, writer, parser
    {
      && parser.reader == reader && parser.Valid() && writer.Valid()
      && writer !in reader.Repr && this !in reader.Repr
      && wire + Unsent(writer.View()) == All(writer.View())
    }

    /** The connection on values, once its parser has been told what to expect. */
    ghost function State(): Conn
      requires Valid() && parser.mode.Some?
      reads this, reader, reader.Repr, writer, parser
    {
      Conn(parser.Cfg(), All(writer.View()), Unsent(writer.View()), wire, parser.State(), parser.Unread())
    }

    constructor (minCapacity: nat)
      requires 0 < minCapacity
      ensures Valid() && fresh(reader) && fresh(reader.Repr) && fresh(writer) && fresh(parser)
      ensures writer.View() == Iovecs([], [], 0) && parser.State() == INITIAL && parser.Unread() == []
      ensures parser.requestKeys == [] && parser.mode.None?
    {
      var r := new BufferReader(minCapacity);
      var w := new BufferWriter();
      var p := new PacketParser(r);
      reader, writer, parser := r, w, p;
      wire := [];
    }

    /** What is offered to the kernel: the first buffers of the queue. */
    ghost function Offered(): Bytes
      requires Valid()
      reads this, reader, reader.Repr, writer, parser
    {
      var bufs := writer.iovec[writer.readIdx..];
      Flatten(if |bufs| > MC_UIO_MAXIOV then bufs[..MC_UIO_MAXIOV] else bufs)
    }

    /** What is offered are the next bytes to be sent. */
    method Offer() returns (bytes: Bytes)
      requires Valid()
      ensures bytes == Offered() && bytes <= Unsent(writer.View())
      ensures writer.msgIovlen <= 1024 ==> bytes == Unsent(writer.View())
      ensures writer.msgIovlen > 1024 ==> bytes == Flatten(writer.iovec[writer.readIdx..writer.readIdx + 1024])
    {
      var bufs := writer.GetReadPtr();
      var first := if |bufs| > MC_UIO_MAXIOV then bufs[..MC_UIO_MAXIOV] else bufs;
      FlattenSum(first, bufs[|first|..]);
      assert bufs == first + bufs[|first|..];
      bytes := Flatten(first);
      assert |bufs| > 1024 ==> first == writer.iovec[writer.readIdx..writer.readIdx + 1024];
    }

    /** `send`: the kernel accepts some of the bytes offered; `None` stands for -1. */
    method Send(accepted: Option<nat>) returns (left: int)
      requires Valid() && parser.mode.Some?
      modifies this`wire, writer
      ensures Valid() && parser.State() == old(parser.State()) && parser.Unread() == old(parser.Unread())
      ensures Proper(old(State()))
      ensures accepted.None? ==> left == -1 && State() == old(State())
      ensures accepted.Some? ==>
                var n := Min(accepted.value, old(|Offered()|));
                State() == Exec(old(State()), SendOp(n)) && wire == old(wire) + old(Offered())[..n]
      ensures accepted.Some? ==> left == writer.msgIovlen && (left == 0 ==> wire == State().all)
    {
      HoldsWellFormed(reader.store, reader.live, parser.View());
      if accepted.None? {
        return -1;
      }
      var offered := Offer();
      left := CommitSent(offered, Min(accepted.value, |offered|));
    }

    /** What `send` does once the kernel has taken `nSent` of the bytes `offered`. */
    method CommitSent(ghost offered: Bytes, nSent: nat) returns (left: nat)
      requires Valid() && parser.mode.Some? && nSent <= |offered| && offered <= Unsent(writer.View())
      modifies this`wire, writer
      ensures Valid() && parser.State() == old(parser.State()) && parser.Unread() == old(parser.Unread())
      ensures Proper(old(State())) && State() == Exec(old(State()), SendOp(nSent))
      ensures wire == old(wire) + offered[..nSent]
      ensures left == writer.msgIovlen && (left == 0 ==> wire == State().all)
    {
      HoldsWellFormed(reader.store, reader.live, parser.View());
      ghost var unsent := Unsent(writer.View());
      assert wire + unsent[..nSent] + unsent[nSent..] == wire + unsent;
      assert offered[..nSent] == unsent[..nSent];
      writer.CommitRead(nSent);
      wire := wire + offered[..nSent];
      left := writer.msgIovlen;
      if left == 0 {
        assert writer.iovec[writer.readIdx..] == [];
        assert wire + [] == wire;
      }
    }

    /** Room for a receive: `getNextPreferedDataBlockSize` and `prepareWriteBlock`. */
    method PrepareReceive() returns (available: nat)
      requires Valid()
      modifies reader
      ensures Valid() && fresh(reader.Repr - old(reader.Repr))
      ensures parser.View() == old(parser.View()) && parser.State() == old(parser.State())
      ensures parser.Unread() == old(parser.Unread())
      ensures WriteReady(reader.View()) && 0 < available && |reader.store[reader.writeIt]| + available <= reader.caps[reader.writeIt]
    {
      ghost var q := reader.View();
      var size := reader.GetNextPreferedDataBlockSize();
      available := reader.PrepareWriteBlock(size);
      ResultsStable(q, reader.store, parser.View());
    }

    method Commit(chunk: Bytes)
      requires Valid() && WriteReady(reader.View()) && |reader.store[reader.writeIt]| + |chunk| <= reader.caps[reader.writeIt]
      modifies reader, reader.Repr
      ensures Valid() && reader.Repr == old(reader.Repr)
      ensures parser.State() == old(parser.State()) && parser.Unread() == old(parser.Unread()) + chunk
    {
      ghost var q := reader.View();
      reader.PutChunk(chunk);
      assert Extends(q.store, reader.store);
      ResultsStable(q, reader.store, parser.View());
    }

    /** `recv`: some of the bytes the peer has sent arrive at the write pointer; if the call
        only peeks they are not committed. */
    method Recv(incoming: Bytes, limit: nat, peek: bool) returns (n: nat)
      requires Valid()
      modifies reader, reader.Repr
      ensures Valid() && fresh(reader.Repr - old(reader.Repr))
      ensures n <= |incoming| && (incoming != [] && limit > 0 ==> n > 0)
      ensures parser.State() == old(parser.State())
      ensures parser.Unread() == old(parser.Unread()) + (if peek then [] else incoming[..n])
    {
      var available := PrepareReceive();
      n := if limit < available then limit else available;
      n := if n < |incoming| then n else |incoming|;
      if peek {
        reader.FillWriteBlock(incoming[..n]);
      } else if n > 0 {
        Commit(incoming[..n]);
      }
    }

    /** `process` */
    method Process() returns (err: Err)
      requires Valid() && parser.mode.Some?
      modifies parser, reader, reader.Repr
      ensures Valid() && reader.Repr == old(reader.Repr) && parser.mode.Some?
      ensures WellFormed(old(parser.State()))
      ensures Result(err, parser.State(), parser.Unread()) ==
              ReplyMachine.Process(old(parser.Cfg()), old(parser.State()), old(parser.Unread()))
      ensures parser.Cfg() == old(parser.Cfg())
    {
      err := parser.ProcessPackets();
    }

    /** A receive and the processing that follows it, as one step. */
    method Receive(incoming: Bytes, limit: nat) returns (n: nat, err: Err)
      requires Valid() && parser.mode.Some?
      modifies parser, reader, reader.Repr
      ensures Valid() && fresh(reader.Repr - old(reader.Repr)) && parser.mode.Some?
      ensures n <= |incoming| && (incoming != [] && limit > 0 ==> n > 0)
      ensures Proper(old(State())) && State() == Exec(old(State()), RecvOp(incoming[..n]))
      ensures err == ReplyMachine.Process(old(parser.Cfg()), old(parser.State()), old(parser.Unread()) + incoming[..n]).err
    {
      n := Recv(incoming, limit, false);
      err := Process();
    }

    /** Everything received is dropped; the request and what was sent of it stay. */
    method RewindReceived()
      requires Valid() && parser.mode.Some?
      modifies parser, reader, reader.Repr
      ensures Valid() && reader.Repr == old(reader.Repr) && parser.mode.Some? && parser.Cfg() == old(parser.Cfg())
      ensures parser.State() == INITIAL && parser.Unread() == []
    {
      parser.Rewind();
      reader.Reset();
      NoResults(reader.store);
    }

    method RewindAll()
      requires Valid() && parser.mode.Some?
      modifies this`wire, parser, reader, reader.Repr, writer
      ensures Valid() && parser.mode.Some? && reader.Repr == old(reader.Repr)
      ensures State() == Dispatched(old(parser.Cfg()), old(All(writer.View())))
    {
      RewindReceived();
      writer.Rewind();
      wire := [];
      NothingSent(All(writer.View()));
    }

    static lemma NothingSent(all: Bytes)
      ensures [] + all == all
    {
    }

    /** `rewind`: everything received is dropped, everything queued is to be sent again. */
    method Rewind()
      requires Valid() && parser.mode.Some?
      modifies this`wire, parser, reader, reader.Repr, writer
      ensures Valid() && parser.mode.Some? && reader.Repr == old(reader.Repr)
      ensures Proper(old(State())) && State() == Exec(old(State()), RewindOp)
    {
      HoldsWellFormed(reader.store, reader.live, parser.View());
      ExecRewind(State());
      RewindAll();
    }

    /** `reset`: nothing is left of the request. */
    method Reset()
      requires Valid()
      modifies this`wire, parser, reader, reader.Repr, writer
      ensures Valid() && reader.Repr == old(reader.Repr)
      ensures writer.View() == Iovecs([], [], 0) && parser.State() == INITIAL && parser.Unread() == []
      ensures parser.requestKeys == [] && parser.mode.None?
    {
      parser.Reset();
      reader.Reset();
      writer.Reset();
      wire := [];
    }
  }
}
