/** What the caller may rely on while an answer is arriving: a conforming answer is
    parsed the same in any chunks, a truncated one never yields a torn value, and in
    counting mode every result carries the right key. */
module Receiving {
  import opened Octets
  import opened ReplyMachine
  import opened Chunking
  import opened Replies

  // ---- conforming answers ----

  /** A proper prefix of a complete answer is recognised as incomplete: the loop
      neither ends, nor fails, nor spins, nor runs past the keys. */
  lemma PrefixIncomplete(cfg: Config, rs: seq<Reply>, a: Bytes, b: Bytes)
    requires Conforming(cfg, rs) && PrintAll(rs) == a + b && b != []
    ensures Process(cfg, INITIAL, a).err == Incomplete
  {
    RoundTrip(cfg, rs, []);
    assert PrintAll(rs) + [] == a + b;
    ProcessSplit(cfg, INITIAL, a, b);
    var r := Process(cfg, INITIAL, a);
    assert |r.rest + b| > 0;
  }

  predicate NoneEmpty(chunks: seq<Bytes>) {
    forall i :: 0 <= i < |chunks| ==> chunks[i] != []
  }

  lemma FlattenEmpty(chunks: seq<Bytes>)
    requires Flatten(chunks) == [] && NoneEmpty(chunks)
    ensures chunks == []
  {
    if chunks != [] {
      SumEmpty(chunks[0], Flatten(chunks[1..]));
    }
  }

  lemma SumEmpty(x: Bytes, y: Bytes)
    requires x + y == []
    ensures x == [] && y == []
  {
    assert |x + y| == |x| + |y|;
  }

  lemma WholeAnswer(cfg: Config, rs: seq<Reply>)
    requires Conforming(cfg, rs)
    ensures Process(cfg, INITIAL, PrintAll(rs)) == Result(FinalError(rs), DeliverAll(cfg, INITIAL, rs), [])
  {
    RoundTrip(cfg, rs, []);
    assert PrintAll(rs) + [] == PrintAll(rs);
  }

  /** If one call on the whole stream uses all of it, so does the receive loop. */
  lemma FeedAll(cfg: Config, ps: PState, chunks: seq<Bytes>, whole: Result)
    requires WellFormed(ps) && chunks != [] && NoneEmpty(chunks)
    requires whole == Process(cfg, ps, Flatten(chunks)) && whole.rest == []
    ensures Feed(cfg, ps, [], chunks) == Fed(whole, |chunks|)
  {
    var f := Feed(cfg, ps, [], chunks);
    assert whole == Result(f.result.err, f.result.ps, f.result.rest + Flatten(chunks[f.taken..])) by {
      ChunkingIndependence(cfg, ps, [], chunks);
      assert [] + Flatten(chunks) == Flatten(chunks);
    }
    SumEmpty(f.result.rest, Flatten(chunks[f.taken..]));
    FlattenEmpty(chunks[f.taken..]);
  }

  /** A complete answer cut into nonempty chunks in any way at all: the receive loop
      takes all of them, every call but the last one asks for more, and the results are
      the ones the answer was printed from. */
  lemma AnswerInChunks(cfg: Config, rs: seq<Reply>, chunks: seq<Bytes>)
    requires Conforming(cfg, rs) && Flatten(chunks) == PrintAll(rs)
    requires chunks != [] && NoneEmpty(chunks)
    ensures Feed(cfg, INITIAL, [], chunks) ==
            Fed(Result(FinalError(rs), DeliverAll(cfg, INITIAL, rs), []), |chunks|)
  {
    WholeAnswer(cfg, rs);
    FeedAll(cfg, INITIAL, chunks, Result(FinalError(rs), DeliverAll(cfg, INITIAL, rs), []));
  }

  // ---- truncated answers ----

  const MAX_LENGTH := 0xFFFF_FFFF

  /** All the data announced for the value is there. */
  predicate Complete(r: Retrieval) {
    r.bytesRemain == 0 && |r.data| == r.bytes
  }

  /** What `bytesRemain` says about the value that is being read. */
  predicate LengthsKept(ps: PState) {
    && (forall i :: 0 <= i < |ps.retrievals| - 1 ==> Complete(ps.retrievals[i]))
    && (ps.retrievals != [] ==>
          var last := Last(ps.retrievals);
          match ps.fsm
          case GetStart | GetKey | GetFlags => last.bytesRemain == 1 && last.bytes == 0 && last.data == []
          case GetBytes | GetCas =>
            last.bytes <= MAX_LENGTH && last.bytesRemain == Inc32(last.bytes) && last.data == []
          case GetValueRemaining =>
            last.bytes <= MAX_LENGTH && (Complete(last) || (last.bytesRemain == last.bytes && last.data == []))
          case Start | End | Error | VerStart | StatStart | IncrDecrStart | IncrDecrRemaining => Complete(last))
  }

  lemma StepKeepsLengths(cfg: Config, ps: PState, s: Bytes)
    requires WellFormed(ps) && LengthsKept(ps)
    ensures LengthsKept(Step(cfg, ps, s).ps)
  {
    match ps.fsm
    case Start => StartKeepsLengths(cfg, ps, s);
    case GetCas => CountDown(Last(ps.retrievals).bytes);
    case GetStart | GetKey | GetFlags | GetBytes | GetValueRemaining | End | Error
       | VerStart | StatStart | IncrDecrStart | IncrDecrRemaining =>
  }

  lemma StartKeepsLengths(cfg: Config, ps: PState, s: Bytes)
    requires ps.fsm == Start && LengthsKept(ps)
    ensures LengthsKept(StepStart(cfg, ps, s).ps)
    ensures ps.retrievals <= StepStart(cfg, ps, s).ps.retrievals
    ensures StepStart(cfg, ps, s).ps.fsm == GetStart || StepStart(cfg, ps, s).ps.retrievals == ps.retrievals
  {
    if s != [] {
      match s[0]
      case _ =>
    }
  }

  /** The results `collectRetrievalResult` hands out: those with `bytesRemain` zero. */
  function Kept(rs: seq<Retrieval>): seq<Retrieval> {
    if rs == [] then []
    else Kept(rs[..|rs| - 1]) + (if Last(rs).bytesRemain == 0 then [Last(rs)] else [])
  }

  /** The values that have been read to their end. */
  function Finished(ps: PState): seq<Retrieval>
    requires WellFormed(ps)
  {
    if ReadingValue(ps.fsm) && !Complete(Last(ps.retrievals)) then ps.retrievals[..|ps.retrievals| - 1] else ps.retrievals
  }

  lemma FinishedComplete(ps: PState)
    requires WellFormed(ps) && LengthsKept(ps)
    ensures forall r <- Finished(ps) :: Complete(r)
  {
  }

  lemma {:induction false} KeptAll(rs: seq<Retrieval>)
    requires forall r <- rs :: r.bytesRemain == 0
    ensures Kept(rs) == rs
  {
    if rs != [] {
      KeptAll(rs[..|rs| - 1]);
      assert rs == rs[..|rs| - 1] + [Last(rs)];
    }
  }

  /** A length of 2^32 - 1 makes `bytesRemain` wrap around to zero while the line that
      announces the value is being read. */
  predicate Wrapped(ps: PState) {
    (ps.fsm == GetBytes || ps.fsm == GetCas) && ps.retrievals != [] && Last(ps.retrievals).bytes == MAX_LENGTH
  }

  lemma KeptSplit(rs: seq<Retrieval>)
    requires rs != [] && forall i :: 0 <= i < |rs| - 1 ==> rs[i].bytesRemain == 0
    ensures Last(rs).bytesRemain != 0 ==> Kept(rs) == rs[..|rs| - 1]
    ensures Last(rs).bytesRemain == 0 ==> Kept(rs) == rs
  {
    var init, last := rs[..|rs| - 1], Last(rs);
    assert forall r <- init :: r.bytesRemain == 0;
    KeptAll(init);
    InitAndLast(rs);
    NothingAdded(init);
    if last.bytesRemain == 0 {
      assert Kept(rs) == Kept(init) + [last];
    } else {
      assert Kept(rs) == Kept(init) + [];
    }
  }

  lemma NothingAdded<T>(ts: seq<T>)
    ensures ts + [] == ts
  {
  }

  /** In every other state the results handed out are the finished values. */
  lemma KeptIsFinished(ps: PState)
    requires WellFormed(ps) && LengthsKept(ps)
    ensures !Wrapped(ps) ==> Kept(ps.retrievals) == Finished(ps)
    ensures Wrapped(ps) ==> Kept(ps.retrievals) == Finished(ps) + [Last(ps.retrievals)]
  {
    if ps.retrievals != [] {
      KeptSplit(ps.retrievals);
      InitAndLast(ps.retrievals);
      LastKept(ps);
    }
  }

  lemma LastKept(ps: PState)
    requires WellFormed(ps) && LengthsKept(ps) && ps.retrievals != []
    ensures var last := Last(ps.retrievals);
            var reading := ReadingValue(ps.fsm) && !Complete(last);
            (last.bytesRemain == 0) == (!reading || Wrapped(ps)) && (Wrapped(ps) ==> reading)
  {
  }

  /** Exactly when a result that is not complete is handed out. */
  lemma TornIffWrapped(ps: PState)
    requires WellFormed(ps) && LengthsKept(ps)
    ensures (exists r :: r in Kept(ps.retrievals) && !Complete(r)) <==> Wrapped(ps)
  {
    KeptIsFinished(ps);
    FinishedComplete(ps);
    if Wrapped(ps) {
      var r := Last(ps.retrievals);
      assert r in Kept(ps.retrievals) && !Complete(r);
    }
  }

  /** Finished values are never touched again. */
  lemma StepKeepsFinished(cfg: Config, ps: PState, s: Bytes)
    requires WellFormed(ps) && LengthsKept(ps)
    ensures WellFormed(Step(cfg, ps, s).ps)
    ensures Finished(ps) <= Finished(Step(cfg, ps, s).ps)
  {
    StepProgress(cfg, ps, s);
    if ps.fsm == Start {
      StartKeepsLengths(cfg, ps, s);
    } else if ps.fsm == GetCas {
      CountDown(Last(ps.retrievals).bytes);
    } else if ps.fsm == GetValueRemaining {
      ValueKeepsFinished(ps, s);
    } else {
      OtherKeepsFinished(cfg, ps, s);
    }
  }

  lemma ValueKeepsFinished(ps: PState, s: Bytes)
    requires ps.fsm == GetValueRemaining && WellFormed(ps) && LengthsKept(ps) && WellFormed(StepGetValueRemaining(ps, s).ps)
    ensures Finished(ps) <= Finished(StepGetValueRemaining(ps, s).ps)
  {
  }

  lemma OtherKeepsFinished(cfg: Config, ps: PState, s: Bytes)
    requires ps.fsm != Start && ps.fsm != GetCas && ps.fsm != GetValueRemaining
    requires WellFormed(ps) && LengthsKept(ps) && WellFormed(Step(cfg, ps, s).ps)
    ensures Finished(ps) <= Finished(Step(cfg, ps, s).ps)
  {
  }

  lemma {:induction false} RunKeepsFinished(cfg: Config, ps: PState, s: Bytes)
    requires WellFormed(ps) && LengthsKept(ps)
    ensures LengthsKept(Run(cfg, ps, s).ps) && Finished(ps) <= Finished(Run(cfg, ps, s).ps)
    decreases |s|, Rank(ps)
  {
    if !CanEnd(cfg, ps) {
      StepProgress(cfg, ps, s);
      StepKeepsLengths(cfg, ps, s);
      StepKeepsFinished(cfg, ps, s);
      var r := Step(cfg, ps, s);
      if r.Next? {
        RunKeepsFinished(cfg, r.ps, s[r.used..]);
      }
    }
  }

  /** Truncation safety, for every stream cut anywhere (`a` has arrived, `b` has not):
      unless it stopped inside the line of a value announced as 2^32 - 1 bytes long, the
      results handed out are complete, and they are a prefix of the values that are
      finished when everything has arrived. */
  lemma TruncationSafety(cfg: Config, a: Bytes, b: Bytes)
    ensures var p := Process(cfg, INITIAL, a).ps;
            var f := Process(cfg, INITIAL, a + b).ps;
            && (!Wrapped(p) ==> forall r <- Kept(p.retrievals) :: Complete(r))
            && (!Wrapped(p) ==> Kept(p.retrievals) <= Finished(f))
  {
    ProcessSplit(cfg, INITIAL, a, b);
    RunKeepsFinished(cfg, INITIAL, a);
    var r := Process(cfg, INITIAL, a);
    KeptIsFinished(r.ps);
    FinishedComplete(r.ps);
    if r.err == Incomplete {
      IncompleteNotEnded(cfg, INITIAL, a);
      RunKeepsFinished(cfg, r.ps, r.rest + b);
    }
  }

  /** The value at `i` was announced with the largest length there is. */
  predicate AnnouncedMax(ps: PState, i: nat) {
    && i < |ps.retrievals| && ps.retrievals[i].bytes == MAX_LENGTH
    && (i == |ps.retrievals| - 1 ==> !ps.fsm.GetStart? && !ps.fsm.GetKey? && !ps.fsm.GetFlags?)
  }

  lemma {:induction false} RunKeepsAnnounced(cfg: Config, ps: PState, s: Bytes, i: nat)
    requires WellFormed(ps) && LengthsKept(ps) && AnnouncedMax(ps, i)
    ensures AnnouncedMax(Run(cfg, ps, s).ps, i)
    decreases |s|, Rank(ps)
  {
    if !CanEnd(cfg, ps) {
      StepProgress(cfg, ps, s);
      StepKeepsLengths(cfg, ps, s);
      StepKeepsAnnounced(cfg, ps, s, i);
      var r := Step(cfg, ps, s);
      if r.Next? {
        RunKeepsAnnounced(cfg, r.ps, s[r.used..], i);
      }
    }
  }

  lemma StepKeepsAnnounced(cfg: Config, ps: PState, s: Bytes, i: nat)
    requires WellFormed(ps) && LengthsKept(ps) && AnnouncedMax(ps, i)
    ensures AnnouncedMax(Step(cfg, ps, s).ps, i)
  {
    if ps.fsm == Start {
      StartKeepsLengths(cfg, ps, s);
    }
  }

  predicate NoMaxLength(rs: seq<Reply>) {
    forall i :: 0 <= i < |rs| && rs[i].Value? ==> |rs[i].data| < MAX_LENGTH
  }

  lemma {:induction false} DeliveredLengths(cfg: Config, ps: PState, rs: seq<Reply>)
    requires NoMaxLength(rs) && forall r <- ps.retrievals :: r.bytes != MAX_LENGTH
    ensures forall r <- DeliverAll(cfg, ps, rs).retrievals :: r.bytes != MAX_LENGTH
    decreases |rs|
  {
    if rs != [] {
      DeliveredLengths(cfg, Deliver(cfg, ps, rs[0]), rs[1..]);
    }
  }

  /** A shorter value is never mistaken for a finished one. */
  lemma NotWrapped(cfg: Config, rs: seq<Reply>, a: Bytes, b: Bytes)
    requires Conforming(cfg, rs) && NoMaxLength(rs) && PrintAll(rs) == a + b
    ensures !Wrapped(Process(cfg, INITIAL, a).ps)
  {
    var r := Process(cfg, INITIAL, a);
    ProcessSplit(cfg, INITIAL, a, b);
    WholeAnswer(cfg, rs);
    DeliveredLengths(cfg, INITIAL, rs);
    RunKeepsFinished(cfg, INITIAL, a);
    if r.err == Incomplete {
      IncompleteNotEnded(cfg, INITIAL, a);
    }
    if Wrapped(r.ps) {
      RunKeepsAnnounced(cfg, r.ps, r.rest + b, |r.ps.retrievals| - 1);
    }
  }

  lemma FedState(cfg: Config, chunks: seq<Bytes>)
    requires chunks != []
    ensures Feed(cfg, INITIAL, [], chunks).result.ps == Process(cfg, INITIAL, Flatten(chunks)).ps
  {
    ChunkingIndependence(cfg, INITIAL, [], chunks);
    NothingBefore(Flatten(chunks));
  }

  lemma NothingBefore(a: Bytes)
    ensures [] + a == a
  {
  }

  lemma CutAnswer(cfg: Config, rs: seq<Reply>, a: Bytes, b: Bytes)
    requires Conforming(cfg, rs) && NoMaxLength(rs) && PrintAll(rs) == a + b
    ensures var kept := Kept(Process(cfg, INITIAL, a).ps.retrievals);
            kept <= Sent(rs) && forall r <- kept :: Complete(r)
  {
    NotWrapped(cfg, rs, a, b);
    TruncationSafety(cfg, a, b);
    WholeAnswer(cfg, rs);
    DeliveredValues(cfg, INITIAL, rs);
    assert INITIAL.retrievals + Sent(rs) == Sent(rs);
  }

  /** The same for a prefix of a complete answer, in any chunks: what is handed out is
      a prefix of the values that were sent, each with all its data, provided no value
      is 2^32 - 1 bytes long. */
  lemma TruncatedAnswer(cfg: Config, rs: seq<Reply>, chunks: seq<Bytes>, b: Bytes)
    requires Conforming(cfg, rs) && NoMaxLength(rs) && PrintAll(rs) == Flatten(chunks) + b && chunks != []
    ensures var kept := Kept(Feed(cfg, INITIAL, [], chunks).result.ps.retrievals);
            kept <= Sent(rs) && forall r <- kept :: Complete(r)
  {
    FedState(cfg, chunks);
    CutAnswer(cfg, rs, Flatten(chunks), b);
  }

  /** The exception is real: the header alone is handed out as a finished value. */
  lemma TornValueExample(cfg: Config)
    requires cfg.mode == EndState
    ensures var p := Process(cfg, INITIAL, "VALUE k 0 4294967295\r").ps;
            Wrapped(p) && Kept(p.retrievals) == [Retrieval(['k'], 1, 0, MAX_LENGTH, 0, 0, [])]
  {
    TornValueRun(cfg);
    KeptOne(Retrieval(['k'], 1, 0, MAX_LENGTH, 0, 0, []));
  }

  lemma TornValueRun(cfg: Config)
    requires cfg.mode == EndState
    ensures var p := INITIAL.(retrievals := [Retrieval(['k'], 1, 0, MAX_LENGTH, 0, 0, [])], fsm := GetBytes);
            Run(cfg, INITIAL, "VALUE k 0 4294967295\r") == Result(Incomplete, p, [])
  {
    var p := INITIAL.(retrievals := [] + [Retrieval(['k'], 1, 0, MAX_LENGTH, 0, 0, [])], fsm := GetBytes);
    ValueHeader(cfg, INITIAL, ['k'], 0, MAX_LENGTH, '\r');
    MaxLengthLine();
    NothingToRead(cfg, p);
  }

  lemma NothingToRead(cfg: Config, ps: PState)
    requires ps.fsm == GetBytes && WellFormed(ps) && cfg.mode == EndState
    ensures Run(cfg, ps, []) == Result(Incomplete, ps, [])
  {
  }

  lemma KeptOne(r: Retrieval)
    requires r.bytesRemain == 0
    ensures Kept([r]) == [r]
  {
    assert [r][..0] == [] && Kept([]) == [];
  }

  lemma MaxLengthLine()
    ensures var k: Bytes := ['k']; var cr: Bytes := ['\r'];
            VALUE_ + (k + [' ']) + (Decimal(0) + [' ']) + (Decimal(MAX_LENGTH) + cr) + [] == "VALUE k 0 4294967295\r"
  {
    MaxLengthText();
  }

  lemma MaxLengthText()
    ensures Decimal(MAX_LENGTH) == "4294967295"
  {
    assert Decimal(4) == "4";
    assert Decimal(42) == "42";
    assert Decimal(429) == "429";
    assert Decimal(4294) == "4294";
    assert Decimal(42949) == "42949";
    assert Decimal(429496) == "429496";
    assert Decimal(4294967) == "4294967";
    assert Decimal(42949672) == "42949672";
    assert Decimal(429496729) == "429496729";
  }

  // ---- which answers can be torn ----

  lemma {:induction false} PrintSum(a: seq<Reply>, b: seq<Reply>)
    ensures PrintAll(a + b) == PrintAll(a) + PrintAll(b)
    decreases |a|
  {
    if a == [] {
      assert a + b == b;
    } else {
      assert (a + b)[1..] == a[1..] + b;
      PrintSum(a[1..], b);
      Associate(Print(a[0]), PrintAll(a[1..]), PrintAll(b));
    }
  }

  /** The byte after the length of a value. */
  function AfterLength(v: Reply): octet
    requires v.Value?
  {
    if v.cas.None? then '\r' else ' '
  }

  /** The bytes of a value up to that one. */
  function Header(v: Reply): Bytes
    requires v.Value?
  {
    VALUE_ + (v.key + [' ']) + (Decimal(v.flags) + [' ']) + (Decimal(|v.data|) + [AfterLength(v)])
  }

  lemma HeaderFirst(v: Reply) returns (rest: Bytes)
    requires v.Value?
    ensures Print(v) == Header(v) + rest
  {
    rest := CasTail(v.cas) + (v.data + CRLF);
    ValueShape(v);
  }

  /** Replies after which more may follow, when the answer ends with a last line. */
  lemma {:induction false} DrivesReplies(cfg: Config, ps: PState, rs: seq<Reply>)
    requires cfg.mode == EndState && ps.fsm == Start
    requires forall r <- rs :: WellFormedReply(r) && Continues(EndState, r)
    ensures Drives(cfg, ps, PrintAll(rs), DeliverAll(cfg, ps, rs)) && DeliverAll(cfg, ps, rs).fsm == Start
    decreases |rs|
  {
    if rs == [] {
      DrivesNothing(cfg, ps);
    } else {
      var ps' := Deliver(cfg, ps, rs[0]);
      ReplyDelivered(cfg, ps, rs[0]);
      DrivesReplies(cfg, ps', rs[1..]);
      DrivesThen(cfg, ps, Print(rs[0]), ps', PrintAll(rs[1..]), DeliverAll(cfg, ps, rs));
    }
  }

  lemma HeaderWraps(cfg: Config, ps: PState, v: Reply)
    requires cfg.mode == EndState && ps.fsm == Start && v.Value? && WellFormedReply(v) && |v.data| == MAX_LENGTH
    ensures Run(cfg, ps, Header(v)).err == Incomplete && Wrapped(Run(cfg, ps, Header(v)).ps)
  {
    var r := Retrieval(v.key, |v.key|, v.flags, MAX_LENGTH, Inc32(MAX_LENGTH), 0, []);
    var ps' := ps.(retrievals := ps.retrievals + [r], fsm := GetBytes);
    ValueHeader(cfg, ps, v.key, v.flags, MAX_LENGTH, AfterLength(v));
    assert Header(v) + [] == Header(v);
    assert Run(cfg, ps, Header(v) + []) == Run(cfg, ps', []);
    NothingToRead(cfg, ps');
  }

  lemma CutInHeader(rs: seq<Reply>, i: nat) returns (b: Bytes)
    requires i < |rs| && rs[i].Value?
    ensures PrintAll(rs) == PrintAll(rs[..i]) + Header(rs[i]) + b
  {
    var rest := HeaderFirst(rs[i]);
    b := rest + PrintAll(rs[i + 1..]);
    assert rs == rs[..i] + rs[i..] && rs[i..][1..] == rs[i + 1..];
    PrintSum(rs[..i], rs[i..]);
    Associate(Header(rs[i]), rest, PrintAll(rs[i + 1..]));
    Associate(PrintAll(rs[..i]), Header(rs[i]), b);
  }

  /** Cut after the length of a value of 2^32 - 1 bytes, an answer is torn. */
  lemma MaxLengthWraps(cfg: Config, rs: seq<Reply>, i: nat)
    requires cfg.mode == EndState && Conforming(cfg, rs) && i < |rs| && rs[i].Value? && |rs[i].data| == MAX_LENGTH
    ensures var r := Process(cfg, INITIAL, PrintAll(rs[..i]) + Header(rs[i])); r.err == Incomplete && Wrapped(r.ps)
  {
    assert forall r <- rs[..i] :: WellFormedReply(r) && Continues(EndState, r);
    DrivesReplies(cfg, INITIAL, rs[..i]);
    HeaderWraps(cfg, DeliverAll(cfg, INITIAL, rs[..i]), rs[i]);
  }

  /** What is handed out when `chunks` have arrived is a prefix of the values sent, each
      with all its data. */
  predicate SafelyCut(cfg: Config, rs: seq<Reply>, chunks: seq<Bytes>) {
    var kept := Kept(Feed(cfg, INITIAL, [], chunks).result.ps.retrievals);
    kept <= Sent(rs) && forall r <- kept :: Complete(r)
  }

  predicate CutTo(rs: seq<Reply>, chunks: seq<Bytes>, b: Bytes) {
    chunks != [] && PrintAll(rs) == Flatten(chunks) + b
  }

  /** Wherever the answer is cut, and whatever the chunks. */
  ghost predicate AlwaysSafelyCut(cfg: Config, rs: seq<Reply>) {
    forall chunks: seq<Bytes>, b: Bytes :: CutTo(rs, chunks, b) ==> SafelyCut(cfg, rs, chunks)
  }

  lemma TornWhenCut(cfg: Config, rs: seq<Reply>, a: Bytes)
    requires Process(cfg, INITIAL, a).err == Incomplete && Wrapped(Process(cfg, INITIAL, a).ps)
    ensures Flatten([a]) == a && !SafelyCut(cfg, rs, [a])
  {
    var p := Process(cfg, INITIAL, a).ps;
    FlattenOne(a);
    RunKeepsFinished(cfg, INITIAL, a);
    TornIffWrapped(p);
    assert [] + a == a && [a][1..] == [];
    assert Feed(cfg, INITIAL, [], [a]).result.ps == p;
  }

  /** Exactly which answers are safe wherever they are cut: those without a value of
      2^32 - 1 bytes. */
  lemma SafelyCutIff(cfg: Config, rs: seq<Reply>)
    requires Conforming(cfg, rs)
    ensures AlwaysSafelyCut(cfg, rs) <==> NoMaxLength(rs)
  {
    if NoMaxLength(rs) {
      forall chunks: seq<Bytes>, b: Bytes | CutTo(rs, chunks, b) ensures SafelyCut(cfg, rs, chunks) {
        TruncatedAnswer(cfg, rs, chunks, b);
      }
    } else {
      var i :| 0 <= i < |rs| && rs[i].Value? && |rs[i].data| >= MAX_LENGTH;
      assert WellFormedReply(rs[i]);
      assert cfg.mode == EndState;
      var b := CutInHeader(rs, i);
      var a := PrintAll(rs[..i]) + Header(rs[i]);
      MaxLengthWraps(cfg, rs, i);
      TornWhenCut(cfg, rs, a);
      assert CutTo(rs, [a], b);
    }
  }

  /** Nothing that has arrived is held back: when the first `i` replies of an answer are
      among the bytes received, whatever follows them, their values are handed out. */
  lemma ArrivedHandedOut(cfg: Config, rs: seq<Reply>, i: nat, chunks: seq<Bytes>, more: Bytes)
    requires Conforming(cfg, rs) && cfg.mode == EndState && i < |rs|
    requires chunks != [] && Flatten(chunks) == PrintAll(rs[..i]) + more
    ensures Sent(rs[..i]) <= Kept(Feed(cfg, INITIAL, [], chunks).result.ps.retrievals)
  {
    var first := rs[..i];
    assert forall r <- first :: WellFormedReply(r) && Continues(EndState, r);
    FedState(cfg, chunks);
    DrivesReplies(cfg, INITIAL, first);
    DrivesOn(cfg, INITIAL, PrintAll(first), DeliverAll(cfg, INITIAL, first), more);
    SentFinished(cfg, first);
    RunKeepsFinished(cfg, DeliverAll(cfg, INITIAL, first), more);
    KeptIsFinished(Process(cfg, INITIAL, Flatten(chunks)).ps);
  }

  lemma SentFinished(cfg: Config, rs: seq<Reply>)
    requires DeliverAll(cfg, INITIAL, rs).fsm == Start
    ensures var ps := DeliverAll(cfg, INITIAL, rs);
            WellFormed(ps) && LengthsKept(ps) && Finished(ps) == Sent(rs)
  {
    DeliveredValues(cfg, INITIAL, rs);
    assert INITIAL.retrievals + Sent(rs) == Sent(rs);
    SentWhole(rs);
  }

  // ---- attribution ----

  /** The keys attached to message results, in order ("OK" has none). */
  function MessageKeys(ms: seq<Message>): seq<Bytes> {
    if ms == [] then []
    else MessageKeys(ms[..|ms| - 1]) + (match Last(ms).key case Some(k) => [k] case None => [])
  }

  function NumberKeys(ns: seq<Numeric>): seq<Bytes> {
    if ns == [] then []
    else NumberKeys(ns[..|ns| - 1]) + (match Last(ns).key case Some(k) => [k] case None => [])
  }

  /** `ks` is a shuffle of `a` and `b` that keeps the order of each. */
  predicate Shuffle(a: seq<Bytes>, b: seq<Bytes>, ks: seq<Bytes>) {
    if ks == [] then a == [] && b == []
    else
      || (a != [] && Last(a) == Last(ks) && Shuffle(a[..|a| - 1], b, ks[..|ks| - 1]))
      || (b != [] && Last(b) == Last(ks) && Shuffle(a, b[..|b| - 1], ks[..|ks| - 1]))
  }

  lemma ShuffleAppend(a: seq<Bytes>, b: seq<Bytes>, ks: seq<Bytes>, k: Bytes)
    requires Shuffle(a, b, ks)
    ensures Shuffle(a + [k], b, ks + [k]) && Shuffle(a, b + [k], ks + [k])
  {
    assert (a + [k])[..|a|] == a && (b + [k])[..|b|] == b && (ks + [k])[..|ks|] == ks;
  }

  lemma {:induction false} ShuffleLengths(a: seq<Bytes>, b: seq<Bytes>, ks: seq<Bytes>)
    requires Shuffle(a, b, ks)
    ensures |a| + |b| == |ks| && (b == [] ==> a == ks) && (a == [] ==> b == ks)
    decreases |ks|
  {
    if ks != [] {
      var ks' := ks[..|ks| - 1];
      assert ks == ks' + [Last(ks)];
      if a != [] && Last(a) == Last(ks) && Shuffle(a[..|a| - 1], b, ks') {
        ShuffleLengths(a[..|a| - 1], b, ks');
        assert a == a[..|a| - 1] + [Last(a)];
      } else {
        ShuffleLengths(a, b[..|b| - 1], ks');
        assert b == b[..|b| - 1] + [Last(b)];
      }
    }
  }

  /** Numbers whose line has been read to its end. */
  function FinishedNumbers(ps: PState): seq<Numeric> {
    if (ps.fsm == IncrDecrStart || ps.fsm == IncrDecrRemaining) && ps.numbers != [] then ps.numbers[..|ps.numbers| - 1]
    else ps.numbers
  }

  /** The results `ms` and `ns` carry the first `idx` request keys, each exactly once
      and in order; sealed. */
  ghost predicate Tagged(cfg: Config, idx: nat, ms: seq<Message>, ns: seq<Numeric>) {
    idx <= |cfg.keys| && forall t: bool :: TaggedFor(cfg, idx, ms, ns, t)
  }

  ghost predicate TaggedFor(cfg: Config, idx: nat, ms: seq<Message>, ns: seq<Numeric>, t: bool) {
    idx <= |cfg.keys| && Shuffle(MessageKeys(ms), NumberKeys(ns), cfg.keys[..idx])
  }

  lemma OpenTagged(cfg: Config, idx: nat, ms: seq<Message>, ns: seq<Numeric>)
    requires Tagged(cfg, idx, ms, ns)
    ensures idx <= |cfg.keys| && Shuffle(MessageKeys(ms), NumberKeys(ns), cfg.keys[..idx])
  {
    assert TaggedFor(cfg, idx, ms, ns, true);
  }

  lemma TagOne(cfg: Config, idx: nat, ms: seq<Message>, ns: seq<Numeric>, m: Message, n: Numeric)
    requires Tagged(cfg, idx, ms, ns) && idx < |cfg.keys| && m.key == n.key == Some(cfg.keys[idx])
    ensures Tagged(cfg, idx + 1, ms + [m], ns) && Tagged(cfg, idx + 1, ms, ns + [n])
  {
    var k := cfg.keys[idx];
    OpenTagged(cfg, idx, ms, ns);
    assert cfg.keys[..idx + 1] == cfg.keys[..idx] + [k];
    KeysAppend(ms, m, ns, n);
    ShuffleAppend(MessageKeys(ms), NumberKeys(ns), cfg.keys[..idx], k);
  }

  lemma TagNone(cfg: Config, idx: nat, ms: seq<Message>, ns: seq<Numeric>, m: Message)
    requires Tagged(cfg, idx, ms, ns) && m.key.None?
    ensures Tagged(cfg, idx, ms + [m], ns)
  {
    OpenTagged(cfg, idx, ms, ns);
    KeysAppend(ms, m, ns, FRESH_NUMERIC);
    assert MessageKeys(ms) + [] == MessageKeys(ms);
  }

  predicate AllKeyed(ms: seq<Message>) {
    forall i :: 0 <= i < |ms| ==> ms[i].key.Some?
  }

  /** In counting mode the finished results carry the first `keyIdx` request keys, each
      exactly once and in order, and a number being read carries the next one. */
  ghost predicate Attributed(cfg: Config, ps: PState) {
    && Tagged(cfg, ps.keyIdx, ps.messages, FinishedNumbers(ps))
    && (ps.fsm == IncrDecrRemaining ==>
          ps.keyIdx < |cfg.keys| && ps.numbers != [] && Last(ps.numbers).key == Some(cfg.keys[ps.keyIdx]))
    && (ps.fsm != End ==> AllKeyed(ps.messages))
  }

  lemma KeysAppend(ms: seq<Message>, m: Message, ns: seq<Numeric>, n: Numeric)
    ensures MessageKeys(ms + [m]) == MessageKeys(ms) + (match m.key case Some(k) => [k] case None => [])
    ensures NumberKeys(ns + [n]) == NumberKeys(ns) + (match n.key case Some(k) => [k] case None => [])
  {
    assert (ms + [m])[..|ms|] == ms && (ns + [n])[..|ns|] == ns;
  }

  lemma MessageAttributed(cfg: Config, ps: PState, s: Bytes, n: nat, kind: MessageKind)
    requires ps.fsm == Start && Attributed(cfg, ps) && ps.keyIdx < |cfg.keys|
    ensures Attributed(cfg, TakeMessage(cfg, ps, s, n, kind).ps)
    ensures TakeMessage(cfg, ps, s, n, kind).Stop? ==> TakeMessage(cfg, ps, s, n, kind).err != KeyOverrun
  {
    if |s| >= n {
      if kind == MsgOk {
        TagNone(cfg, ps.keyIdx, ps.messages, ps.numbers, Message(kind, None));
      } else {
        KeyedMessage(cfg, ps, kind);
      }
    }
  }

  lemma TagMessage(cfg: Config, idx: nat, ms: seq<Message>, ns: seq<Numeric>, m: Message)
    requires Tagged(cfg, idx, ms, ns) && idx < |cfg.keys| && m.key == Some(cfg.keys[idx])
    ensures Tagged(cfg, idx + 1, ms + [m], ns)
  {
    TagOne(cfg, idx, ms, ns, m, Numeric(m.key, 0));
  }

  lemma KeyedSnoc(ms: seq<Message>, m: Message)
    requires AllKeyed(ms) && m.key.Some?
    ensures AllKeyed(ms + [m])
  {
  }

  lemma StartReady(cfg: Config, ps: PState)
    requires ps.fsm == Start
    ensures Attributed(cfg, ps) <==> Tagged(cfg, ps.keyIdx, ps.messages, ps.numbers) && AllKeyed(ps.messages)
  {
  }

  lemma KeyedMessage(cfg: Config, ps: PState, kind: MessageKind)
    requires ps.fsm == Start && Attributed(cfg, ps) && ps.keyIdx < |cfg.keys|
    ensures Attributed(cfg, ps.(messages := ps.messages + [Message(kind, Some(cfg.keys[ps.keyIdx]))], keyIdx := ps.keyIdx + 1))
  {
    var m := Message(kind, Some(cfg.keys[ps.keyIdx]));
    StartReady(cfg, ps);
    TagMessage(cfg, ps.keyIdx, ps.messages, ps.numbers, m);
    KeyedSnoc(ps.messages, m);
    StartReady(cfg, ps.(messages := ps.messages + [m], keyIdx := ps.keyIdx + 1));
  }

  /** A transition that finishes no result. */
  predicate SameResults(ps: PState, ps': PState) {
    && ps'.messages == ps.messages && ps'.keyIdx == ps.keyIdx
    && FinishedNumbers(ps') == FinishedNumbers(ps)
    && ps'.fsm != IncrDecrRemaining
  }

  lemma SameAttributed(cfg: Config, ps: PState, ps': PState)
    requires Attributed(cfg, ps) && ps.fsm != End && SameResults(ps, ps')
    ensures Attributed(cfg, ps')
  {
  }

  /** From the start state either a message is taken or no result is finished. */
  lemma SnocInit<T>(ts: seq<T>, t: T)
    ensures (ts + [t])[..|ts|] == ts
  {
  }

  lemma StartTakes(cfg: Config, ps: PState, s: Bytes) returns (message: bool, n: nat, kind: MessageKind)
    requires ps.fsm == Start
    ensures message ==> StepStart(cfg, ps, s) == TakeMessage(cfg, ps, s, n, kind)
    ensures !message ==> SameResults(ps, StepStart(cfg, ps, s).ps)
    ensures !message && StepStart(cfg, ps, s).Stop? ==> StepStart(cfg, ps, s).err != KeyOverrun
  {
    var m := TakenMessage(s);
    message, n, kind := m.0, m.1, m.2;
    if message {
      MessageTaken(cfg, ps, s);
    } else {
      SnocInit(ps.numbers, FRESH_NUMERIC);
      OtherTaken(cfg, ps, s);
    }
  }

  /** Whether the reply is a message, how long, and which. */
  function TakenMessage(s: Bytes): (bool, nat, MessageKind) {
    if s == [] then (false, 0, MsgOk)
    else if s[0] == 'E' then (|s| >= 2 && s[1] == 'X', 8, MsgExists)
    else if s[0] == 'O' then (true, 4, MsgOk)
    else if s[0] == 'S' then (|s| >= 3 && s[1] == 'T' && s[2] == 'O', 8, MsgStored)
    else if s[0] == 'D' then (true, 9, MsgDeleted)
    else if s[0] == 'N' then
      if |s| >= 5 && s[4] == 'F' then (true, 11, MsgNotFound) else (|s| >= 5 && s[4] == 'S', 12, MsgNotStored)
    else (s[0] == 'T', 9, MsgTouched)
  }

  lemma MessageTaken(cfg: Config, ps: PState, s: Bytes)
    requires ps.fsm == Start && TakenMessage(s).0
    ensures var m := TakenMessage(s); StepStart(cfg, ps, s) == TakeMessage(cfg, ps, s, m.1, m.2)
  {
  }

  lemma OtherTaken(cfg: Config, ps: PState, s: Bytes)
    requires ps.fsm == Start && !TakenMessage(s).0 && (ps.numbers + [FRESH_NUMERIC])[..|ps.numbers|] == ps.numbers
    ensures SameResults(ps, StepStart(cfg, ps, s).ps)
    ensures StepStart(cfg, ps, s).Stop? ==> StepStart(cfg, ps, s).err != KeyOverrun
  {
  }

  lemma StartAttributed(cfg: Config, ps: PState, s: Bytes)
    requires ps.fsm == Start && Attributed(cfg, ps) && ps.keyIdx < |cfg.keys|
    ensures Attributed(cfg, StepStart(cfg, ps, s).ps)
    ensures StepStart(cfg, ps, s).Stop? ==> StepStart(cfg, ps, s).err != KeyOverrun
  {
    var message, n, kind := StartTakes(cfg, ps, s);
    if message {
      MessageAttributed(cfg, ps, s, n, kind);
    } else {
      SameAttributed(cfg, ps, StepStart(cfg, ps, s).ps);
    }
  }

  lemma InitAndLast<T>(ts: seq<T>)
    requires ts != []
    ensures ts[..|ts| - 1] + [Last(ts)] == ts
  {
  }

  lemma NumberReady(cfg: Config, ps: PState)
    requires ps.fsm == IncrDecrRemaining && Attributed(cfg, ps)
    ensures ps.numbers != [] && ps.keyIdx < |cfg.keys| && Last(ps.numbers).key == Some(cfg.keys[ps.keyIdx])
    ensures Tagged(cfg, ps.keyIdx, ps.messages, ps.numbers[..|ps.numbers| - 1]) && AllKeyed(ps.messages)
  {
  }

  lemma TagNumber(cfg: Config, idx: nat, ms: seq<Message>, ns: seq<Numeric>, n: Numeric, all: seq<Numeric>)
    requires Tagged(cfg, idx, ms, ns) && idx < |cfg.keys| && n.key == Some(cfg.keys[idx]) && ns + [n] == all
    ensures Tagged(cfg, idx + 1, ms, all)
  {
    TagOne(cfg, idx, ms, ns, Message(MsgStored, n.key), n);
  }

  lemma NumberAttributed(cfg: Config, ps: PState)
    requires ps.fsm == IncrDecrRemaining && Attributed(cfg, ps)
    ensures Attributed(cfg, ps.(keyIdx := ps.keyIdx + 1, fsm := Start))
  {
    NumberReady(cfg, ps);
    InitAndLast(ps.numbers);
    TagNumber(cfg, ps.keyIdx, ps.messages, ps.numbers[..|ps.numbers| - 1], Last(ps.numbers), ps.numbers);
    NumberTagged(cfg, ps);
  }

  lemma NumberTagged(cfg: Config, ps: PState)
    requires ps.fsm == IncrDecrRemaining && AllKeyed(ps.messages) && Tagged(cfg, ps.keyIdx + 1, ps.messages, ps.numbers)
    ensures Attributed(cfg, ps.(keyIdx := ps.keyIdx + 1, fsm := Start))
  {
  }

  lemma NumberStarted(cfg: Config, ps: PState, s: Bytes)
    requires ps.fsm == IncrDecrStart && ps.numbers != [] && Attributed(cfg, ps) && ps.keyIdx < |cfg.keys|
    ensures Attributed(cfg, StepIncrDecrStart(cfg, ps, s).ps)
    ensures StepIncrDecrStart(cfg, ps, s).Stop? ==> StepIncrDecrStart(cfg, ps, s).err != KeyOverrun
  {
  }

  lemma StepAttributed(cfg: Config, ps: PState, s: Bytes)
    requires WellFormed(ps) && Attributed(cfg, ps) && cfg.mode == Counting && !CanEnd(cfg, ps)
    ensures Attributed(cfg, Step(cfg, ps, s).ps)
    ensures Step(cfg, ps, s).Stop? ==> Step(cfg, ps, s).err != KeyOverrun
  {
    if ps.fsm.Start? {
      StartAttributed(cfg, ps, s);
    } else if ps.fsm.IncrDecrRemaining? {
      NumberEnded(cfg, ps, s);
    } else if ps.fsm.IncrDecrStart? {
      NumberStarted(cfg, ps, s);
    } else if !ps.fsm.End? && !ps.fsm.Error? {
      ReadingFinishesNothing(cfg, ps, s);
      SameAttributed(cfg, ps, Step(cfg, ps, s).ps);
    }
  }

  lemma NumberEnded(cfg: Config, ps: PState, s: Bytes)
    requires WellFormed(ps) && Attributed(cfg, ps) && ps.fsm == IncrDecrRemaining
    ensures Attributed(cfg, Step(cfg, ps, s).ps)
    ensures Step(cfg, ps, s).Stop? ==> Step(cfg, ps, s).err != KeyOverrun
  {
    NumberAttributed(cfg, ps);
  }

  lemma ReadingFinishesNothing(cfg: Config, ps: PState, s: Bytes)
    requires WellFormed(ps) && (ReadingValue(ps.fsm) || ps.fsm == VerStart || ps.fsm == StatStart)
    ensures SameResults(ps, Step(cfg, ps, s).ps)
    ensures Step(cfg, ps, s).Stop? ==> Step(cfg, ps, s).err != KeyOverrun
  {
  }

  /** Attribution over whole runs, for every stream: the key index never passes the end
      of the keys, and a call that returns `Ok` has attached the request keys, all of
      them, in order, one to each result. */
  lemma {:induction false} RunAttributed(cfg: Config, ps: PState, s: Bytes)
    requires WellFormed(ps) && Attributed(cfg, ps) && cfg.mode == Counting
    ensures Attributed(cfg, Run(cfg, ps, s).ps) && Run(cfg, ps, s).err != KeyOverrun
    decreases |s|, Rank(ps)
  {
    if !CanEnd(cfg, ps) {
      StepProgress(cfg, ps, s);
      StepAttributed(cfg, ps, s);
      var r := Step(cfg, ps, s);
      if r.Next? {
        RunAttributed(cfg, r.ps, s[r.used..]);
      }
    }
  }

  lemma {:induction false} MessageKeysAll(ms: seq<Message>)
    requires AllKeyed(ms)
    ensures |MessageKeys(ms)| == |ms| && forall i :: 0 <= i < |ms| ==> ms[i].key == Some(MessageKeys(ms)[i])
  {
    if ms != [] {
      MessageKeysAll(ms[..|ms| - 1]);
    }
  }

  lemma NoneTagged(cfg: Config)
    ensures Attributed(cfg, INITIAL)
  {
    assert cfg.keys[..0] == [];
    assert Tagged(cfg, 0, [], []);
  }

  /** When counting ends with `Ok` there are as many results as keys; if none of them
      is a number (a multi-set, -delete or -touch), the i-th reply is tagged with the
      i-th key. */
  lemma OnePerKey(cfg: Config, s: Bytes)
    requires cfg.mode == Counting && Process(cfg, INITIAL, s).err == Ok
    ensures var ps := Process(cfg, INITIAL, s).ps;
            && ps.keyIdx == |cfg.keys|
            && |MessageKeys(ps.messages)| + |NumberKeys(FinishedNumbers(ps))| == |cfg.keys|
            && (ps.numbers == [] ==>
                  |ps.messages| == |cfg.keys| && forall i :: 0 <= i < |cfg.keys| ==> ps.messages[i].key == Some(cfg.keys[i]))
  {
    var ps := Process(cfg, INITIAL, s).ps;
    NoneTagged(cfg);
    RunAttributed(cfg, INITIAL, s);
    OkMeansAllKeys(cfg, INITIAL, s);
    OpenTagged(cfg, ps.keyIdx, ps.messages, FinishedNumbers(ps));
    assert cfg.keys[..ps.keyIdx] == cfg.keys;
    ShuffleLengths(MessageKeys(ps.messages), NumberKeys(FinishedNumbers(ps)), cfg.keys);
    if ps.numbers == [] {
      MessageKeysAll(ps.messages);
    }
  }

  /** Counting never ends in the state after "OK" or "END": the loop has no way out of it. */
  lemma {:induction false} OkMeansAllKeys(cfg: Config, ps: PState, s: Bytes)
    requires WellFormed(ps) && cfg.mode == Counting && Run(cfg, ps, s).err == Ok
    requires ps.fsm == End ==> !CanEnd(cfg, ps)
    ensures Run(cfg, ps, s).ps.keyIdx == |cfg.keys| && Run(cfg, ps, s).ps.fsm != End
    decreases |s|, Rank(ps)
  {
    if !CanEnd(cfg, ps) {
      StepProgress(cfg, ps, s);
      var r := Step(cfg, ps, s);
      if ps.fsm == Start {
        StartEnds(cfg, ps, s);
      }
      if r.Next? {
        OkMeansAllKeys(cfg, r.ps, s[r.used..]);
      }
    }
  }

  lemma StartEnds(cfg: Config, ps: PState, s: Bytes)
    requires ps.fsm == Start
    ensures StepStart(cfg, ps, s).ps.fsm == End ==> StepStart(cfg, ps, s).ps.keyIdx == ps.keyIdx
    ensures StepStart(cfg, ps, s).Stop? ==> StepStart(cfg, ps, s).err != Ok
  {
    if s != [] {
      match s[0]
      case _ =>
    }
  }
}
