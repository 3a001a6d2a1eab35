/** Resumption: what the parser does with a stream does not depend on how the
    stream was cut into chunks. */
module Chunking {
  import opened Octets
  import opened ReplyMachine

  predicate Decided(r: StepResult) {
    r.Next? || r.err != Incomplete
  }

  /** A transition that did not run out of bytes is not affected by later bytes. */
  lemma StepStable(cfg: Config, ps: PState, a: Bytes, b: Bytes)
    requires WellFormed(ps) && Decided(Step(cfg, ps, a))
    ensures Step(cfg, ps, a + b) == Step(cfg, ps, a)
  {
    match ps.fsm
    case Start => StepStartStable(cfg, ps, a, b);
    case GetStart => IndexOfStable(' ', a, b); TakePrefix(a, b, IndexOf(' ', a));
    case GetKey | GetFlags | IncrDecrStart => ReadUnsignedStable(a, b);
    case GetBytes => if a[0] != '\n' { ReadUnsignedStable(a, b); }
    case GetValueRemaining =>
      var last := Last(ps.retrievals);
      if last.bytesRemain > 0 { TakePrefix(a, b, last.bytes); }
    case VerStart | StatStart => IndexOfStable('\n', a, b); TakePrefix(a, b, IndexOf('\n', a));
    case IncrDecrRemaining => IndexOfStable('\n', a, b);
    case GetCas | End | Error =>
  }

  lemma TakePrefix(a: Bytes, b: Bytes, n: nat)
    requires n <= |a|
    ensures (a + b)[..n] == a[..n]
  {
  }

  lemma StepStartStable(cfg: Config, ps: PState, a: Bytes, b: Bytes)
    requires ps.fsm == Start && Decided(StepStart(cfg, ps, a))
    ensures StepStart(cfg, ps, a + b) == StepStart(cfg, ps, a)
  {
    match a[0]
    case 'E' | 'S' | 'C' => if '\n' in a { IndexOfStable('\n', a, b); }
    case _ =>
  }

  /** Splitting a run: a call that ran out of bytes can be resumed where it stopped,
      and a call that did not would have done the same with more bytes. */
  lemma {:induction false} RunSplit(cfg: Config, ps: PState, a: Bytes, b: Bytes)
    requires WellFormed(ps)
    ensures var r := Run(cfg, ps, a);
            Run(cfg, ps, a + b) ==
            if r.err == Incomplete then Run(cfg, r.ps, r.rest + b) else Result(r.err, r.ps, r.rest + b)
    decreases |a|, Rank(ps)
  {
    if !CanEnd(cfg, ps) {
      StepProgress(cfg, ps, a);
      var r := Step(cfg, ps, a);
      if Decided(r) {
        StepStable(cfg, ps, a, b);
        assert (a + b)[r.used..] == a[r.used..] + b;
      }
      if r.Next? {
        RunSplit(cfg, r.ps, a[r.used..], b);
      } else if r.err == Incomplete {
        StopUsesNothing(cfg, ps, a);
      }
    }
  }

  lemma StopUsesNothing(cfg: Config, ps: PState, s: Bytes)
    requires WellFormed(ps) && Step(cfg, ps, s).Stop? && Step(cfg, ps, s).err == Incomplete
    ensures Step(cfg, ps, s) == Stop(Incomplete, ps, 0)
  {
    if ps.fsm == Start && s != [] {
      match s[0]
      case _ =>
    }
  }

  /** A call that runs out of bytes never leaves the parser in an end state. */
  lemma {:induction false} IncompleteNotEnded(cfg: Config, ps: PState, s: Bytes)
    requires WellFormed(ps) && Run(cfg, ps, s).err == Incomplete
    ensures var r := Run(cfg, ps, s); Resume(r.ps) == r.ps && !CanEnd(cfg, r.ps)
    decreases |s|, Rank(ps)
  {
    if !CanEnd(cfg, ps) {
      StepProgress(cfg, ps, s);
      var r := Step(cfg, ps, s);
      if r.Next? {
        IncompleteNotEnded(cfg, r.ps, s[r.used..]);
      } else {
        StopUsesNothing(cfg, ps, s);
      }
    }
  }

  /** The same statement for whole calls of `process_packets`. */
  lemma ProcessSplit(cfg: Config, ps: PState, a: Bytes, b: Bytes)
    requires WellFormed(ps)
    ensures var r := Process(cfg, ps, a);
            Process(cfg, ps, a + b) ==
            if r.err == Incomplete then Process(cfg, r.ps, r.rest + b) else Result(r.err, r.ps, r.rest + b)
  {
    RunSplit(cfg, Resume(ps), a, b);
    if Process(cfg, ps, a).err == Incomplete {
      IncompleteNotEnded(cfg, Resume(ps), a);
    }
  }

  function Flatten(chunks: seq<Bytes>): Bytes {
    if chunks == [] then [] else chunks[0] + Flatten(chunks[1..])
  }

  lemma {:induction false} FlattenSum(a: seq<Bytes>, b: seq<Bytes>)
    ensures Flatten(a + b) == Flatten(a) + Flatten(b)
  {
    if a == [] {
      assert a + b == b;
    } else {
      assert (a + b)[1..] == a[1..] + b;
      FlattenSum(a[1..], b);
    }
  }

  lemma FlattenOne(text: Bytes)
    ensures Flatten([text]) == text
  {
    assert [text][1..] == [];
  }

  /** What a receive loop has after it stopped: the last result and the number of
      chunks it took. */
  datatype Fed = Fed(result: Result, taken: nat)

  /** The receive loop: append a chunk to the unread bytes, call `process_packets`,
      go on while it asks for more. */
  function Feed(cfg: Config, ps: PState, unread: Bytes, chunks: seq<Bytes>): (f: Fed)
    requires WellFormed(ps)
    ensures f.taken <= |chunks|
    decreases |chunks|
  {
    if chunks == [] then Fed(Result(Incomplete, ps, unread), 0)
    else
      var r := Process(cfg, ps, unread + chunks[0]);
      if r.err == Incomplete then
        var f := Feed(cfg, r.ps, r.rest, chunks[1..]);
        Fed(f.result, f.taken + 1)
      else Fed(r, 1)
  }

  /** Chunking independence, for every stream, every cut, both modes and every state:
      the loop ends with the error code, the parser state and the unread remainder of
      one call on the whole stream.  (By its definition every earlier call of the
      loop returned `Incomplete`.) */
  lemma {:induction false} ChunkingIndependence(cfg: Config, ps: PState, unread: Bytes, chunks: seq<Bytes>)
    requires WellFormed(ps) && chunks != []
    ensures var f := Feed(cfg, ps, unread, chunks);
            Process(cfg, ps, unread + Flatten(chunks)) ==
            Result(f.result.err, f.result.ps, f.result.rest + Flatten(chunks[f.taken..]))
    decreases |chunks|
  {
    var a, b := unread + chunks[0], Flatten(chunks[1..]);
    assert unread + Flatten(chunks) == a + b;
    ProcessSplit(cfg, ps, a, b);
    var r := Process(cfg, ps, a);
    if r.err == Incomplete {
      if |chunks| == 1 {
        assert r.rest + b == r.rest;
        IncompleteNotEnded(cfg, Resume(ps), a);
        RunAgain(cfg, Resume(ps), a);
        assert Flatten(chunks[1..]) == [];
      } else {
        ChunkingIndependence(cfg, r.ps, r.rest, chunks[1..]);
        var f := Feed(cfg, ps, unread, chunks);
        assert chunks[f.taken..] == chunks[1..][f.taken - 1..];
      }
    }
  }

  /** Calling again without new bytes changes nothing. */
  lemma RunAgain(cfg: Config, ps: PState, s: Bytes)
    requires WellFormed(ps) && Run(cfg, ps, s).err == Incomplete
    ensures var r := Run(cfg, ps, s); Run(cfg, r.ps, r.rest) == r
  {
    RunSplit(cfg, ps, s, []);
    assert s + [] == s && Run(cfg, ps, s).rest + [] == Run(cfg, ps, s).rest;
  }
}
