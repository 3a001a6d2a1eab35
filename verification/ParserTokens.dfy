/** The results of the parser while they still consist of tokens, on values. */
module ParserTokens {
  import opened Octets
  import opened BlockQueue
  import opened ReplyMachine

  datatype RetrievalResult = RetrievalResult(key: TokenData, keyLen: nat, dataBlock: TokenData,
                                             cas: nat, bytesRemain: nat, bytes: nat, flags: nat)

  const NEW_RETRIEVAL := RetrievalResult([], 0, [], 0, 1, 0, 0)

  datatype LineResult = LineResult(line: TokenData, lineLen: nat)

  const NEW_LINE := LineResult([], 0)

  datatype Tokens = Tokens(state: Fsm, keyIdx: nat, retrievals: seq<RetrievalResult>, messages: seq<Message>,
                           lines: seq<LineResult>, numbers: seq<Numeric>)

  // ---- what the tokens stand for ----

  /** The bytes of a token; nothing for one that is not within the store. */
  function TokenBytes(store: seq<Bytes>, td: TokenData): Bytes {
    if TokenWithin(store, td) then Denote(store, td) else []
  }

  function AbsRetrieval(store: seq<Bytes>, r: RetrievalResult): Retrieval {
    Retrieval(TokenBytes(store, r.key), r.keyLen, r.flags, r.bytes, r.bytesRemain, r.cas, TokenBytes(store, r.dataBlock))
  }

  function AbsRetrievals(store: seq<Bytes>, rs: seq<RetrievalResult>): (a: seq<Retrieval>)
    ensures |a| == |rs|
  {
    if rs == [] then [] else AbsRetrievals(store, rs[..|rs| - 1]) + [AbsRetrieval(store, Last(rs))]
  }

  function AbsLines(store: seq<Bytes>, ls: seq<LineResult>): (a: seq<Bytes>)
    ensures |a| == |ls|
  {
    if ls == [] then [] else AbsLines(store, ls[..|ls| - 1]) + [TokenBytes(store, Last(ls).line)]
  }

  function Abs(store: seq<Bytes>, ts: Tokens): PState {
    PState(ts.state, ts.keyIdx, AbsRetrievals(store, ts.retrievals), ts.messages, AbsLines(store, ts.lines), ts.numbers)
  }

  // ---- the slices they hold ----

  function SlicesOf(r: RetrievalResult): multiset<Slice> {
    multiset(r.key) + multiset(r.dataBlock)
  }

  function HeldByRetrievals(rs: seq<RetrievalResult>): multiset<Slice> {
    if rs == [] then multiset{} else HeldByRetrievals(rs[..|rs| - 1]) + SlicesOf(Last(rs))
  }

  function HeldByLines(ls: seq<LineResult>): multiset<Slice> {
    if ls == [] then multiset{} else HeldByLines(ls[..|ls| - 1]) + multiset(Last(ls).line)
  }

  function Held(ts: Tokens): multiset<Slice> {
    HeldByRetrievals(ts.retrievals) + HeldByLines(ts.lines)
  }

  /** A token that is about to be filled is empty, and one being filled exists. */
  predicate Fillable(ts: Tokens) {
    match ts.state
    case GetStart =>
      ts.retrievals != [] && Last(ts.retrievals).cas == 0 && Last(ts.retrievals).dataBlock == [] && Last(ts.retrievals).key == []
    case GetKey | GetFlags | GetBytes =>
      ts.retrievals != [] && Last(ts.retrievals).cas == 0 && Last(ts.retrievals).dataBlock == []
    case GetCas => ts.retrievals != [] && Last(ts.retrievals).dataBlock == []
    case GetValueRemaining =>
      ts.retrievals != [] && (Last(ts.retrievals).bytesRemain > 0 ==> Last(ts.retrievals).dataBlock == [])
    case VerStart | StatStart => ts.lines != [] && Last(ts.lines).line == []
    case IncrDecrStart => ts.numbers != [] && Last(ts.numbers) == FRESH_NUMERIC
    case IncrDecrRemaining => ts.numbers != []
    case Start | End | Error => true
  }

  lemma FillableWellFormed(store: seq<Bytes>, ts: Tokens)
    requires Fillable(ts)
    ensures WellFormed(Abs(store, ts))
  {
  }

  // ---- changing the last result or adding one ----

  lemma PutLast(store: seq<Bytes>, rs: seq<RetrievalResult>, r: RetrievalResult)
    requires rs != []
    ensures AbsRetrievals(store, SetLast(rs, r)) == SetLast(AbsRetrievals(store, rs), AbsRetrieval(store, r))
    ensures HeldByRetrievals(SetLast(rs, r)) == HeldByRetrievals(rs[..|rs| - 1]) + SlicesOf(r)
    ensures Last(AbsRetrievals(store, rs)) == AbsRetrieval(store, Last(rs))
  {
    assert SetLast(rs, r)[..|rs| - 1] == rs[..|rs| - 1];
  }

  lemma AddRetrieval(store: seq<Bytes>, rs: seq<RetrievalResult>, r: RetrievalResult)
    ensures AbsRetrievals(store, rs + [r]) == AbsRetrievals(store, rs) + [AbsRetrieval(store, r)]
    ensures HeldByRetrievals(rs + [r]) == HeldByRetrievals(rs) + SlicesOf(r)
  {
    assert (rs + [r])[..|rs|] == rs;
  }

  lemma PutLastLine(store: seq<Bytes>, ls: seq<LineResult>, l: LineResult)
    requires ls != []
    ensures AbsLines(store, SetLast(ls, l)) == SetLast(AbsLines(store, ls), TokenBytes(store, l.line))
    ensures HeldByLines(SetLast(ls, l)) == HeldByLines(ls[..|ls| - 1]) + multiset(l.line)
    ensures Last(AbsLines(store, ls)) == TokenBytes(store, Last(ls).line)
  {
    assert SetLast(ls, l)[..|ls| - 1] == ls[..|ls| - 1];
  }

  lemma AddLine(store: seq<Bytes>, ls: seq<LineResult>, l: LineResult)
    ensures AbsLines(store, ls + [l]) == AbsLines(store, ls) + [TokenBytes(store, l.line)]
    ensures HeldByLines(ls + [l]) == HeldByLines(ls) + multiset(l.line)
  {
    assert (ls + [l])[..|ls|] == ls;
  }

  // ---- the transitions, on tokens ----

  function WithLast(ts: Tokens, r: RetrievalResult, state: Fsm): Tokens
    requires ts.retrievals != []
  {
    ts.(retrievals := SetLast(ts.retrievals, r), state := state)
  }

  /** Setting numbers of the last result holds the same slices. */
  lemma NumbersSet(store: seq<Bytes>, ts: Tokens, r: RetrievalResult, state: Fsm)
    requires ts.retrievals != [] && r.key == Last(ts.retrievals).key && r.dataBlock == Last(ts.retrievals).dataBlock
    ensures Held(WithLast(ts, r, state)) == Held(ts)
    ensures Abs(store, WithLast(ts, r, state)) ==
            Abs(store, ts).(retrievals := SetLast(Abs(store, ts).retrievals, AbsRetrieval(store, r)), fsm := state)
    ensures Last(Abs(store, ts).retrievals) == AbsRetrieval(store, Last(ts.retrievals))
  {
    PutLast(store, ts.retrievals, r);
  }

  lemma KeySet(store: seq<Bytes>, ts: Tokens, td: TokenData, keyLen: nat)
    requires ts.retrievals != [] && Last(ts.retrievals).key == [] && TokenWithin(store, td)
    ensures var r := Last(ts.retrievals).(key := td, keyLen := keyLen);
            var ts' := WithLast(ts, r, GetKey);
            var last := Last(Abs(store, ts).retrievals);
            && Held(ts') == Held(ts) + multiset(td)
            && Abs(store, ts') ==
               Abs(store, ts).(retrievals := SetLast(Abs(store, ts).retrievals, last.(key := Denote(store, td), keyLen := keyLen)),
                               fsm := GetKey)
  {
    PutLast(store, ts.retrievals, Last(ts.retrievals).(key := td, keyLen := keyLen));
  }

  lemma DataSet(store: seq<Bytes>, ts: Tokens, td: TokenData)
    requires ts.retrievals != [] && Last(ts.retrievals).dataBlock == [] && TokenWithin(store, td)
    ensures var r := Last(ts.retrievals).(dataBlock := td, bytesRemain := 0);
            var ts' := WithLast(ts, r, ts.state);
            var last := Last(Abs(store, ts).retrievals);
            && Held(ts') == Held(ts) + multiset(td)
            && Abs(store, ts') ==
               Abs(store, ts).(retrievals := SetLast(Abs(store, ts).retrievals, last.(data := Denote(store, td), bytesRemain := 0)))
  {
    PutLast(store, ts.retrievals, Last(ts.retrievals).(dataBlock := td, bytesRemain := 0));
  }

  lemma LineSet(store: seq<Bytes>, ts: Tokens, td: TokenData, n: nat, state: Fsm)
    requires ts.lines != [] && Last(ts.lines).line == [] && TokenWithin(store, td)
    ensures var ts' := ts.(lines := SetLast(ts.lines, LineResult(td, n)), state := state);
            && Held(ts') == Held(ts) + multiset(td)
            && Abs(store, ts') == Abs(store, ts).(lines := SetLast(Abs(store, ts).lines, Denote(store, td)), fsm := state)
  {
    PutLastLine(store, ts.lines, LineResult(td, n));
  }

  lemma ResultAdded(store: seq<Bytes>, ts: Tokens)
    ensures var t1 := ts.(retrievals := ts.retrievals + [NEW_RETRIEVAL], state := GetStart);
            && Fillable(t1) && Held(t1) == Held(ts)
            && Abs(store, t1) == Abs(store, ts).(retrievals := Abs(store, ts).retrievals + [FRESH_RETRIEVAL], fsm := GetStart)
    ensures forall state :: (
              var t2 := ts.(lines := ts.lines + [NEW_LINE], state := state);
              && Held(t2) == Held(ts)
              && Abs(store, t2) == Abs(store, ts).(lines := Abs(store, ts).lines + [[]], fsm := state))
  {
    AddRetrieval(store, ts.retrievals, NEW_RETRIEVAL);
    AddLine(store, ts.lines, NEW_LINE);
  }

  // ---- the same transitions as steps of the flat parser ----

  /** The live slices are those of the results, with multiplicity, and a result that is
      about to be filled can be.  Sealed against unfolding. */
  ghost predicate Holds(live: multiset<Slice>, ts: Tokens) {
    forall t: bool :: HoldsFor(live, ts, t)
  }

  ghost predicate HoldsFor(live: multiset<Slice>, ts: Tokens, t: bool) {
    live == Held(ts) && Fillable(ts)
  }

  lemma OpenHolds(live: multiset<Slice>, ts: Tokens)
    requires Holds(live, ts)
    ensures live == Held(ts) && Fillable(ts)
  {
    assert HoldsFor(live, ts, true);
  }

  lemma HoldsWellFormed(store: seq<Bytes>, live: multiset<Slice>, ts: Tokens)
    requires Holds(live, ts)
    ensures WellFormed(Abs(store, ts))
  {
    OpenHolds(live, ts);
    FillableWellFormed(store, ts);
  }

  /** After a transition to `ts'` the parser holds `live'`, and the flat parser has taken a
      step that used `used` bytes. */
  ghost predicate StepsTo(store: seq<Bytes>, live': multiset<Slice>, ts': Tokens, r: StepResult, used: nat) {
    Holds(live', ts') && r == Next(Abs(store, ts'), used)
  }

  lemma GetStartSteps(store: seq<Bytes>, live: multiset<Slice>, ts: Tokens, s: Bytes, td: TokenData, n: nat)
    requires Holds(live, ts) && ts.retrievals != [] && ts.state == GetStart && ' ' in s && n == IndexOf(' ', s)
    requires TokenWithin(store, td) && Denote(store, td) == s[..n]
    ensures var ts' := WithLast(ts, Last(ts.retrievals).(key := td, keyLen := n % 256), GetKey);
            StepsTo(store, live + multiset(td), ts', StepGetStart(Abs(store, ts), s), n + 1)
  {
    OpenHolds(live, ts);
    KeySet(store, ts, td, n % 256);
  }

  /** A transition that sets numbers of the last result. */
  lemma NumberSteps(store: seq<Bytes>, live: multiset<Slice>, ts: Tokens, r: RetrievalResult, state: Fsm)
    requires Holds(live, ts) && ts.retrievals != []
    requires r.key == Last(ts.retrievals).key && r.dataBlock == Last(ts.retrievals).dataBlock
    requires Fillable(ts) ==> Fillable(WithLast(ts, r, state))
    ensures var a := Abs(store, ts);
            && Holds(live, WithLast(ts, r, state))
            && Abs(store, WithLast(ts, r, state)) ==
               a.(retrievals := SetLast(a.retrievals, AbsRetrieval(store, r)), fsm := state)
            && Last(a.retrievals) == AbsRetrieval(store, Last(ts.retrievals))
  {
    OpenHolds(live, ts);
    NumbersSet(store, ts, r, state);
  }

  lemma FlagsSteps(store: seq<Bytes>, live: multiset<Slice>, ts: Tokens, s: Bytes, v: nat, n: nat)
    requires Holds(live, ts) && ts.retrievals != [] && ts.state == GetKey && ReadUnsigned(s) == Parsed(v, n)
    ensures var ts' := WithLast(ts, Last(ts.retrievals).(flags := Wrap32(v)), GetFlags);
            StepsTo(store, live, ts', StepGetKey(Abs(store, ts), s), n + 1)
  {
    NumberSteps(store, live, ts, Last(ts.retrievals).(flags := Wrap32(v)), GetFlags);
  }

  lemma LengthSteps(store: seq<Bytes>, live: multiset<Slice>, ts: Tokens, s: Bytes, v: nat, n: nat)
    requires Holds(live, ts) && ts.retrievals != [] && ts.state == GetFlags && ReadUnsigned(s) == Parsed(v, n)
    ensures var bytes := Wrap32(v);
            var ts' := WithLast(ts, Last(ts.retrievals).(bytes := bytes, bytesRemain := Inc32(bytes)), GetBytes);
            StepsTo(store, live, ts', StepGetFlags(Abs(store, ts), s), n + 1)
  {
    var bytes := Wrap32(v);
    NumberSteps(store, live, ts, Last(ts.retrievals).(bytes := bytes, bytesRemain := Inc32(bytes)), GetBytes);
  }

  lemma NoCasSteps(store: seq<Bytes>, live: multiset<Slice>, ts: Tokens, s: Bytes)
    requires Holds(live, ts) && ts.retrievals != [] && ts.state == GetBytes && s != [] && s[0] == '\n'
    ensures var ts' := WithLast(ts, Last(ts.retrievals).(cas := 0), GetCas);
            StepsTo(store, live, ts', StepGetBytes(Abs(store, ts), s), 0)
  {
    NumberSteps(store, live, ts, Last(ts.retrievals).(cas := 0), GetCas);
  }

  lemma CasSteps(store: seq<Bytes>, live: multiset<Slice>, ts: Tokens, s: Bytes, v: nat, n: nat)
    requires Holds(live, ts) && ts.retrievals != [] && ts.state == GetBytes
    requires s != [] && s[0] != '\n' && ReadUnsigned(s) == Parsed(v, n)
    ensures var ts' := WithLast(ts, Last(ts.retrievals).(cas := v), GetCas);
            StepsTo(store, live, ts', StepGetBytes(Abs(store, ts), s), n + 1)
  {
    NumberSteps(store, live, ts, Last(ts.retrievals).(cas := v), GetCas);
  }

  lemma LineEndSteps(store: seq<Bytes>, live: multiset<Slice>, ts: Tokens, s: Bytes)
    requires Holds(live, ts) && ts.retrievals != [] && ts.state == GetCas && s != []
    ensures var last := Last(ts.retrievals);
            var ts' := WithLast(ts, last.(bytesRemain := Dec32(last.bytesRemain)), GetValueRemaining);
            StepsTo(store, live, ts', StepGetCas(Abs(store, ts), s), 1)
  {
    var last := Last(ts.retrievals);
    NumberSteps(store, live, ts, last.(bytesRemain := Dec32(last.bytesRemain)), GetValueRemaining);
  }

  lemma DataSteps(store: seq<Bytes>, live: multiset<Slice>, ts: Tokens, s: Bytes, td: TokenData)
    requires Holds(live, ts) && ts.retrievals != [] && ts.state == GetValueRemaining && Last(ts.retrievals).bytesRemain > 0
    requires Last(ts.retrievals).bytes <= |s| && TokenWithin(store, td) && Denote(store, td) == s[..Last(ts.retrievals).bytes]
    ensures var ts' := WithLast(ts, Last(ts.retrievals).(dataBlock := td, bytesRemain := 0), GetValueRemaining);
            StepsTo(store, live + multiset(td), ts', StepGetValueRemaining(Abs(store, ts), s), Last(ts.retrievals).bytes)
  {
    OpenHolds(live, ts);
    DataSet(store, ts, td);
    PutLast(store, ts.retrievals, Last(ts.retrievals).(dataBlock := td, bytesRemain := 0));
  }

  lemma DataMissing(store: seq<Bytes>, ts: Tokens, s: Bytes)
    requires ts.retrievals != [] && ts.state == GetValueRemaining
    requires |s| < if Last(ts.retrievals).bytesRemain > 0 then Last(ts.retrievals).bytes else 2
    ensures StepGetValueRemaining(Abs(store, ts), s) == Stop(Incomplete, Abs(store, ts), 0)
  {
    PutLast(store, ts.retrievals, Last(ts.retrievals));
  }

  lemma DataEndSteps(store: seq<Bytes>, live: multiset<Slice>, ts: Tokens, s: Bytes)
    requires Holds(live, ts) && ts.retrievals != [] && ts.state == GetValueRemaining
    requires Last(ts.retrievals).bytesRemain == 0 && |s| >= 2
    ensures StepsTo(store, live, ts.(state := Start), StepGetValueRemaining(Abs(store, ts), s), 2)
  {
    PutLast(store, ts.retrievals, Last(ts.retrievals));
    HoldsSame(live, ts, ts.(state := Start));
  }

  /** Transitions that touch no token. */
  lemma HoldsSame(live: multiset<Slice>, ts: Tokens, ts': Tokens)
    requires Holds(live, ts) && ts'.retrievals == ts.retrievals && ts'.lines == ts.lines
    requires match ts'.state
             case Start | End | Error => true
             case IncrDecrStart => ts'.numbers != [] && Last(ts'.numbers) == FRESH_NUMERIC
             case IncrDecrRemaining => ts'.numbers != []
             case _ => false
    ensures Holds(live, ts')
  {
    OpenHolds(live, ts);
  }

  lemma NumberStartSteps(store: seq<Bytes>, live: multiset<Slice>, cfg: Config, ts: Tokens, s: Bytes, v: nat, n: nat)
    requires Holds(live, ts) && ts.numbers != [] && ts.state == IncrDecrStart
    requires ReadUnsigned(s) == Parsed(v, n) && ts.keyIdx < |cfg.keys|
    ensures var ts' := ts.(numbers := SetLast(ts.numbers, Numeric(Some(cfg.keys[ts.keyIdx]), v)), state := IncrDecrRemaining);
            StepsTo(store, live, ts', StepIncrDecrStart(cfg, Abs(store, ts), s), n + 1)
  {
    HoldsSame(live, ts, ts.(numbers := SetLast(ts.numbers, Numeric(Some(cfg.keys[ts.keyIdx]), v)), state := IncrDecrRemaining));
  }

  lemma NumberEndSteps(store: seq<Bytes>, live: multiset<Slice>, ts: Tokens, s: Bytes)
    requires Holds(live, ts) && ts.state == IncrDecrRemaining && '\n' in s
    ensures StepsTo(store, live, ts.(keyIdx := ts.keyIdx + 1, state := Start),
                    StepIncrDecrRemaining(Abs(store, ts), s), IndexOf('\n', s) + 1)
  {
    HoldsSame(live, ts, ts.(keyIdx := ts.keyIdx + 1, state := Start));
  }

  lemma LineSteps(store: seq<Bytes>, live: multiset<Slice>, ts: Tokens, s: Bytes, td: TokenData, n: nat, after: Fsm)
    requires Holds(live, ts) && ts.lines != [] && (ts.state == VerStart || ts.state == StatStart) && (after == Start || after == End)
    requires '\n' in s && n == IndexOf('\n', s) && TokenWithin(store, td) && Denote(store, td) == s[..n]
    ensures StepsTo(store, live + multiset(td), ts.(lines := SetLast(ts.lines, LineResult(td, n)), state := after),
                    StepLine(Abs(store, ts), s, after), n + 1)
  {
    OpenHolds(live, ts);
    LineSet(store, ts, td, n, after);
  }

  lemma MessageSteps(store: seq<Bytes>, live: multiset<Slice>, cfg: Config, ts: Tokens, s: Bytes, n: nat, kind: MessageKind)
    requires Holds(live, ts) && ts.state == Start && |s| >= n && (kind == MsgOk || ts.keyIdx < |cfg.keys|)
    ensures StepsTo(store, live, AfterMessage(cfg, ts, kind), TakeMessage(cfg, Abs(store, ts), s, n, kind), n)
  {
    HoldsSame(live, ts, AfterMessage(cfg, ts, kind));
  }

  function AfterMessage(cfg: Config, ts: Tokens, kind: MessageKind): Tokens
    requires kind == MsgOk || ts.keyIdx < |cfg.keys|
  {
    if kind == MsgOk then ts.(messages := ts.messages + [Message(kind, None)], state := End)
    else ts.(messages := ts.messages + [Message(kind, Some(cfg.keys[ts.keyIdx]))], keyIdx := ts.keyIdx + 1)
  }

  lemma WordSteps(store: seq<Bytes>, live: multiset<Slice>, ts: Tokens, s: Bytes, n: nat, next: Fsm)
    requires Holds(live, ts) && ts.state == Start && (next == Start || next == End) && |s| >= n
    ensures StepsTo(store, live, ts.(state := next), TakeHeader(Abs(store, ts), s, n, Abs(store, ts).(fsm := next)), n)
  {
    HoldsSame(live, ts, ts.(state := next));
  }

  lemma ValueStarts(store: seq<Bytes>, live: multiset<Slice>, ts: Tokens, s: Bytes)
    requires Holds(live, ts) && ts.state == Start && |s| >= 6
    ensures var ps := Abs(store, ts);
            StepsTo(store, live, ts.(retrievals := ts.retrievals + [NEW_RETRIEVAL], state := GetStart),
                    TakeHeader(ps, s, 6, ps.(retrievals := ps.retrievals + [FRESH_RETRIEVAL], fsm := GetStart)), 6)
  {
    OpenHolds(live, ts);
    ResultAdded(store, ts);
  }

  lemma LineAdded(store: seq<Bytes>, live: multiset<Slice>, ts: Tokens, state: Fsm)
    requires Holds(live, ts) && (state == VerStart || state == StatStart)
    ensures var t2 := ts.(lines := ts.lines + [NEW_LINE], state := state);
            && Holds(live, t2)
            && Abs(store, t2) == Abs(store, ts).(lines := Abs(store, ts).lines + [[]], fsm := state)
  {
    OpenHolds(live, ts);
    AddLine(store, ts.lines, NEW_LINE);
  }

  lemma LineStarts(store: seq<Bytes>, live: multiset<Slice>, ts: Tokens, s: Bytes, n: nat, state: Fsm)
    requires Holds(live, ts) && ts.state == Start && (state == VerStart || state == StatStart) && |s| >= n
    ensures var ps := Abs(store, ts);
            StepsTo(store, live, ts.(lines := ts.lines + [NEW_LINE], state := state),
                    TakeHeader(ps, s, n, ps.(lines := ps.lines + [[]], fsm := state)), n)
  {
    LineAdded(store, live, ts, state);
  }

  /** A parser without results. */
  const NO_RESULTS := Tokens(Start, 0, [], [], [], [])

  lemma NoResults(store: seq<Bytes>)
    ensures Abs(store, NO_RESULTS) == INITIAL && Holds(multiset{}, NO_RESULTS)
  {
  }

  // ---- more bytes arriving ----

  /** The slices of a token are within the store if the slices held are. */
  lemma TokenStable(store: seq<Bytes>, store': seq<Bytes>, td: TokenData, held: multiset<Slice>)
    requires multiset(td) <= held && (forall s :: s in held ==> WithinStore(store, s)) && Extends(store, store')
    ensures TokenBytes(store', td) == TokenBytes(store, td)
  {
    forall k | 0 <= k < |td| ensures WithinStore(store, td[k]) {
      assert td[k] in multiset(td);
    }
    DenoteStable(store, store', td);
  }

  lemma {:induction false} RetrievalsStable(store: seq<Bytes>, store': seq<Bytes>, rs: seq<RetrievalResult>)
    requires (forall s :: s in HeldByRetrievals(rs) ==> WithinStore(store, s)) && Extends(store, store')
    ensures AbsRetrievals(store', rs) == AbsRetrievals(store, rs)
  {
    if rs != [] {
      RetrievalsStable(store, store', rs[..|rs| - 1]);
      TokenStable(store, store', Last(rs).key, HeldByRetrievals(rs));
      TokenStable(store, store', Last(rs).dataBlock, HeldByRetrievals(rs));
    }
  }

  lemma {:induction false} LinesStable(store: seq<Bytes>, store': seq<Bytes>, ls: seq<LineResult>)
    requires (forall s :: s in HeldByLines(ls) ==> WithinStore(store, s)) && Extends(store, store')
    ensures AbsLines(store', ls) == AbsLines(store, ls)
  {
    if ls != [] {
      LinesStable(store, store', ls[..|ls| - 1]);
      TokenStable(store, store', Last(ls).line, HeldByLines(ls));
    }
  }

  /** Results that hold their slices do not change when more bytes arrive. */
  lemma ResultsStable(q: Queue, store': seq<Bytes>, ts: Tokens)
    requires Sound(q) && Holds(q.live, ts) && Extends(q.store, store')
    ensures Abs(store', ts) == Abs(q.store, ts)
  {
    OpenHolds(q.live, ts);
    Open(q);
    RetrievalsStable(q.store, store', ts.retrievals);
    LinesStable(q.store, store', ts.lines);
  }

  /** The tokens of a result are within the store. */
  lemma {:induction false} RetrievalWithin(store: seq<Bytes>, rs: seq<RetrievalResult>, i: nat)
    requires (forall s :: s in HeldByRetrievals(rs) ==> WithinStore(store, s)) && i < |rs|
    ensures TokenWithin(store, rs[i].key) && TokenWithin(store, rs[i].dataBlock)
    ensures AbsRetrievals(store, rs)[i] == AbsRetrieval(store, rs[i])
    ensures SlicesOf(rs[i]) <= HeldByRetrievals(rs)
  {
    if i < |rs| - 1 {
      RetrievalWithin(store, rs[..|rs| - 1], i);
    }
    var r := rs[i];
    forall k | 0 <= k < |r.key| ensures WithinStore(store, r.key[k]) {
      assert r.key[k] in multiset(r.key);
    }
    forall k | 0 <= k < |r.dataBlock| ensures WithinStore(store, r.dataBlock[k]) {
      assert r.dataBlock[k] in multiset(r.dataBlock);
    }
  }

  lemma ResultWithin(q: Queue, ts: Tokens, i: nat)
    requires Sound(q) && Holds(q.live, ts) && i < |ts.retrievals|
    ensures TokenWithin(q.store, ts.retrievals[i].key) && TokenWithin(q.store, ts.retrievals[i].dataBlock)
    ensures Abs(q.store, ts).retrievals[i] == AbsRetrieval(q.store, ts.retrievals[i])
    ensures SlicesOf(ts.retrievals[i]) <= q.live
  {
    Open(q);
    OpenHolds(q.live, ts);
    RetrievalWithin(q.store, ts.retrievals, i);
  }
}
