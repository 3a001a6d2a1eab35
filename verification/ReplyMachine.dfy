/** The reply parser as a plain parser over a flat byte sequence.

    `Step` is one transition of `PacketParser::process_packets` on the bytes that
    are still unread; `Run` is its loop.  Nothing here knows about blocks, tokens
    or resumption: the class in Parser.dfy is proved to compute exactly this, and
    the theorems about replies are proved about this. */
module ReplyMachine {
  import opened Octets

  datatype ParserMode = EndState | Counting

  datatype Fsm =
    | Start | End | Error
    | GetStart | GetKey | GetFlags | GetBytes | GetCas | GetValueRemaining
    | VerStart | StatStart
    | IncrDecrStart | IncrDecrRemaining

  /** `Livelock` and `KeyOverrun` are not codes of the library: the first stands for
      an iteration of the loop that changes nothing and so repeats forever, the
      second for an access to `m_requestKeys` past its end. */
  datatype Err = Ok | Incomplete | ProgrammingErr | ServerErr | Livelock | KeyOverrun

  datatype MessageKind = MsgExists | MsgOk | MsgStored | MsgNotStored | MsgNotFound | MsgDeleted | MsgTouched

  datatype Retrieval = Retrieval(key: Bytes, keyLen: nat, flags: nat, bytes: nat,
                                 bytesRemain: nat, cas: nat, data: Bytes)

  const FRESH_RETRIEVAL := Retrieval([], 0, 0, 0, 1, 0, [])

  datatype Message = Message(kind: MessageKind, key: Option<Bytes>)

  datatype Numeric = Numeric(key: Option<Bytes>, value: nat)

  const FRESH_NUMERIC := Numeric(None, 0)

  /** What one connection expects: how to tell the end, and the keys sent. */
  datatype Config = Config(mode: ParserMode, keys: seq<Bytes>)

  datatype PState = PState(fsm: Fsm, keyIdx: nat, retrievals: seq<Retrieval>, messages: seq<Message>,
                           lines: seq<Bytes>, numbers: seq<Numeric>)

  const INITIAL := PState(Start, 0, [], [], [], [])

  /** A transition uses up the first `used` unread bytes; `Stop` ends the call. */
  datatype StepResult = Next(ps: PState, used: nat) | Stop(err: Err, ps: PState, used: nat)

  /** An implementation returned `err` and left `ps'` and the unread bytes `rest`, as
      the transition `r` on the bytes `s` says. */
  predicate Takes(r: StepResult, s: Bytes, err: Err, ps': PState, rest: Bytes) {
    r.used <= |s| && rest == s[r.used..] && ps' == r.ps && err == (if r.Next? then Ok else r.err)
  }

  datatype Result = Result(err: Err, ps: PState, rest: Bytes)

  predicate ReadingValue(fsm: Fsm) {
    fsm.GetStart? || fsm.GetKey? || fsm.GetFlags? || fsm.GetBytes? || fsm.GetCas? || fsm.GetValueRemaining?
  }

  /** The states that fill in a result have one to fill in, and a field that an
      interrupted read would reset to zero is still zero. */
  predicate WellFormed(ps: PState) {
    match ps.fsm
    case Start | End | Error => true
    case GetStart | GetKey | GetFlags | GetBytes => ps.retrievals != [] && Last(ps.retrievals).cas == 0
    case GetCas | GetValueRemaining => ps.retrievals != []
    case VerStart | StatStart => ps.lines != [] && Last(ps.lines) == []
    case IncrDecrStart => ps.numbers != [] && Last(ps.numbers) == FRESH_NUMERIC
    case IncrDecrRemaining => ps.numbers != []
  }

  function Last<T>(s: seq<T>): T
    requires s != []
  {
    s[|s| - 1]
  }

  function SetLast<T>(s: seq<T>, x: T): (r: seq<T>)
    requires s != []
    ensures |r| == |s| && Last(r) == x && r[..|r| - 1] == s[..|s| - 1]
  {
    s[|s| - 1 := x]
  }

  // ---- the reader's operations on a flat queue ----

  datatype Unsigned = Short | NotANumber | Parsed(value: nat, length: nat)

  /** `BufferReader::readUnsigned`: needs two bytes, a digit first, and a byte that
      ends the number; the value is taken modulo 2^64. */
  function ReadUnsigned(s: Bytes): (u: Unsigned)
    ensures u.Parsed? ==> 0 < u.length < |s| && u.value < TWO_64
  {
    if |s| < 2 then Short
    else
      var n := DigitCount(s);
      if n == 0 then NotANumber
      else if n == |s| then Short
      else Parsed(Wrap64(DigitsValue(s[..n])), n)
  }

  lemma ReadUnsignedStable(a: Bytes, b: Bytes)
    requires !ReadUnsigned(a).Short?
    ensures ReadUnsigned(a + b) == ReadUnsigned(a)
  {
    var n := DigitCount(a);
    DigitCountSpec(a);
    assert (a + b)[..n] == a[..n];
    DigitCountIsLongest(a + b, n);
  }

  // ---- transitions ----

  function TakeMessage(cfg: Config, ps: PState, s: Bytes, n: nat, kind: MessageKind): StepResult
  {
    if |s| < n then Stop(Incomplete, ps, 0)
    else if kind == MsgOk then
      Next(ps.(messages := ps.messages + [Message(kind, None)], fsm := End), n)
    else if ps.keyIdx >= |cfg.keys| then Stop(KeyOverrun, ps, n)
    else
      Next(ps.(messages := ps.messages + [Message(kind, Some(cfg.keys[ps.keyIdx]))],
               keyIdx := ps.keyIdx + 1), n)
  }

  function TakeErrorLine(ps: PState, s: Bytes, err: Err): StepResult {
    if '\n' !in s then Stop(Incomplete, ps, 0)
    else Stop(err, ps.(fsm := Error), IndexOf('\n', s) + 1)
  }

  function TakeHeader(ps: PState, s: Bytes, n: nat, ps': PState): StepResult {
    if |s| < n then Stop(Incomplete, ps, 0) else Next(ps', n)
  }

  /** `PacketParser::start_state` in a release build, where the expected word is
      skipped by length and not compared. */
  function StepStart(cfg: Config, ps: PState, s: Bytes): StepResult
    requires ps.fsm == Start
  {
    if s == [] then Stop(Incomplete, ps, 0)
    else match s[0]
      case 'V' =>
        if |s| < 2 then Stop(Incomplete, ps, 0)
        else if s[1] == 'A' then
          TakeHeader(ps, s, 6, ps.(retrievals := ps.retrievals + [FRESH_RETRIEVAL], fsm := GetStart))
        else if s[1] == 'E' then
          TakeHeader(ps, s, 8, ps.(lines := ps.lines + [[]], fsm := VerStart))
        else Stop(Livelock, ps, 0)
      case 'E' =>
        if |s| < 2 then Stop(Incomplete, ps, 0)
        else if s[1] == 'R' then TakeErrorLine(ps, s, ProgrammingErr)
        else if s[1] == 'N' then TakeHeader(ps, s, 5, ps.(fsm := End))
        else if s[1] == 'X' then TakeMessage(cfg, ps, s, 8, MsgExists)
        else Stop(Livelock, ps, 0)
      case 'O' => TakeMessage(cfg, ps, s, 4, MsgOk)
      case 'S' =>
        if |s| < 3 then Stop(Incomplete, ps, 0)
        else if s[1] == 'T' then
          if s[2] == 'O' then TakeMessage(cfg, ps, s, 8, MsgStored)
          else TakeHeader(ps, s, 5, ps.(lines := ps.lines + [[]], fsm := StatStart))
        else TakeErrorLine(ps, s, ServerErr)
      case 'D' => TakeMessage(cfg, ps, s, 9, MsgDeleted)
      case 'N' =>
        if |s| < 5 then Stop(Incomplete, ps, 0)
        else if s[4] == 'F' then TakeMessage(cfg, ps, s, 11, MsgNotFound)
        else if s[4] == 'S' then TakeMessage(cfg, ps, s, 12, MsgNotStored)
        else Stop(Livelock, ps, 0)
      case 'T' => TakeMessage(cfg, ps, s, 9, MsgTouched)
      case 'C' => TakeErrorLine(ps, s, ProgrammingErr)
      case c =>
        if IsDigit(c) then Next(ps.(numbers := ps.numbers + [FRESH_NUMERIC], fsm := IncrDecrStart), 0)
        else Stop(ProgrammingErr, ps, 0)
  }

  function StepGetStart(ps: PState, s: Bytes): StepResult
    requires ps.retrievals != []
  {
    if ' ' !in s then Stop(Incomplete, ps, 0)
    else
      var n := IndexOf(' ', s);
      var r := Last(ps.retrievals).(key := s[..n], keyLen := n % 256);
      Next(ps.(retrievals := SetLast(ps.retrievals, r), fsm := GetKey), n + 1)
  }

  function StepGetKey(ps: PState, s: Bytes): StepResult
    requires ps.retrievals != []
  {
    match ReadUnsigned(s)
    case Short => Stop(Incomplete, ps, 0)
    case NotANumber => Stop(ProgrammingErr, ps, 0)
    case Parsed(v, n) =>
      var r := Last(ps.retrievals).(flags := Wrap32(v));
      Next(ps.(retrievals := SetLast(ps.retrievals, r), fsm := GetFlags), n + 1)
  }

  function StepGetFlags(ps: PState, s: Bytes): StepResult
    requires ps.retrievals != []
  {
    match ReadUnsigned(s)
    case Short => Stop(Incomplete, ps, 0)
    case NotANumber => Stop(ProgrammingErr, ps, 0)
    case Parsed(v, n) =>
      var bytes := Wrap32(v);
      var r := Last(ps.retrievals).(bytes := bytes, bytesRemain := Inc32(bytes));
      Next(ps.(retrievals := SetLast(ps.retrievals, r), fsm := GetBytes), n + 1)
  }

  function StepGetBytes(ps: PState, s: Bytes): StepResult
    requires ps.retrievals != []
  {
    if s == [] then Stop(Incomplete, ps, 0)
    else if s[0] == '\n' then
      Next(ps.(retrievals := SetLast(ps.retrievals, Last(ps.retrievals).(cas := 0)), fsm := GetCas), 0)
    else match ReadUnsigned(s)
      case Short => Stop(Incomplete, ps, 0)
      case NotANumber => Stop(ProgrammingErr, ps, 0)
      case Parsed(v, n) =>
        Next(ps.(retrievals := SetLast(ps.retrievals, Last(ps.retrievals).(cas := v)), fsm := GetCas), n + 1)
  }

  function StepGetCas(ps: PState, s: Bytes): StepResult
    requires ps.retrievals != []
  {
    if s == [] then Stop(Incomplete, ps, 0)
    else
      var last := Last(ps.retrievals);
      var r := last.(bytesRemain := Dec32(last.bytesRemain));
      Next(ps.(retrievals := SetLast(ps.retrievals, r), fsm := GetValueRemaining), 1)
  }

  function StepGetValueRemaining(ps: PState, s: Bytes): StepResult
    requires ps.retrievals != []
  {
    var last := Last(ps.retrievals);
    if last.bytesRemain > 0 then
      if |s| < last.bytes then Stop(Incomplete, ps, 0)
      else
        var r := last.(data := s[..last.bytes], bytesRemain := 0);
        Next(ps.(retrievals := SetLast(ps.retrievals, r)), last.bytes)
    else if |s| < 2 then Stop(Incomplete, ps, 0)
    else Next(ps.(fsm := Start), 2)
  }

  function StepIncrDecrStart(cfg: Config, ps: PState, s: Bytes): StepResult
    requires ps.numbers != []
  {
    match ReadUnsigned(s)
    case Short => Stop(Incomplete, ps, 0)
    case NotANumber => Stop(ProgrammingErr, ps, 0)
    case Parsed(v, n) =>
      if ps.keyIdx >= |cfg.keys| then Stop(KeyOverrun, ps, n + 1)
      else
        Next(ps.(numbers := SetLast(ps.numbers, Numeric(Some(cfg.keys[ps.keyIdx]), v)),
                 fsm := IncrDecrRemaining), n + 1)
  }

  function StepIncrDecrRemaining(ps: PState, s: Bytes): StepResult {
    if '\n' !in s then Stop(Incomplete, ps, 0)
    else Next(ps.(keyIdx := ps.keyIdx + 1, fsm := Start), IndexOf('\n', s) + 1)
  }

  function StepLine(ps: PState, s: Bytes, after: Fsm): StepResult
    requires ps.lines != []
  {
    if '\n' !in s then Stop(Incomplete, ps, 0)
    else
      var n := IndexOf('\n', s);
      Next(ps.(lines := SetLast(ps.lines, s[..n]), fsm := after), n + 1)
  }

  /** One iteration of the loop of `process_packets`. */
  function Step(cfg: Config, ps: PState, s: Bytes): StepResult
    requires WellFormed(ps)
  {
    match ps.fsm
    case Start => StepStart(cfg, ps, s)
    case GetStart => StepGetStart(ps, s)
    case GetKey => StepGetKey(ps, s)
    case GetFlags => StepGetFlags(ps, s)
    case GetBytes => StepGetBytes(ps, s)
    case GetCas => StepGetCas(ps, s)
    case GetValueRemaining => StepGetValueRemaining(ps, s)
    case IncrDecrStart => StepIncrDecrStart(cfg, ps, s)
    case IncrDecrRemaining => StepIncrDecrRemaining(ps, s)
    case VerStart => StepLine(ps, s, End)
    case StatStart => StepLine(ps, s, Start)
    case End => Stop(Livelock, ps, 0)
    case Error => Stop(Livelock, ps, 0)
  }

  predicate CanEnd(cfg: Config, ps: PState) {
    match cfg.mode
    case EndState => ps.fsm.End? || ps.fsm.Error?
    case Counting => ps.keyIdx == |cfg.keys|
  }

  /** Decreases on the transitions that consume nothing. */
  function Rank(ps: PState): nat {
    match ps.fsm
    case Start => 1
    case GetBytes => 1
    case GetValueRemaining => if ps.retrievals != [] && Last(ps.retrievals).bytesRemain > 0 then 1 else 0
    case _ => 0
  }

  /** What every transition does to the parser and the queue: the state stays well
      formed, no more bytes are used than there are, and a transition that is taken
      uses bytes or lowers the rank. */
  predicate Progresses(ps: PState, s: Bytes, r: StepResult) {
    && WellFormed(r.ps)
    && r.used <= |s|
    && (r.Next? ==> r.used > 0 || Rank(r.ps) < Rank(ps))
  }

  lemma StepProgress(cfg: Config, ps: PState, s: Bytes)
    requires WellFormed(ps)
    ensures Progresses(ps, s, Step(cfg, ps, s))
  {
    match ps.fsm
    case Start => StepStartProgress(cfg, ps, s);
    case _ =>
  }

  lemma TakeProgress(cfg: Config, ps: PState, s: Bytes, n: nat, kind: MessageKind, ps': PState, err: Err)
    requires ps.fsm == Start && n > 0 && WellFormed(ps')
    ensures Progresses(ps, s, TakeMessage(cfg, ps, s, n, kind))
    ensures Progresses(ps, s, TakeHeader(ps, s, n, ps'))
    ensures Progresses(ps, s, TakeErrorLine(ps, s, err))
  {
  }

  lemma StepStartProgress(cfg: Config, ps: PState, s: Bytes)
    requires ps.fsm == Start
    ensures Progresses(ps, s, StepStart(cfg, ps, s))
  {
    var r := StepStart(cfg, ps, s);
    var value := ps.(retrievals := ps.retrievals + [FRESH_RETRIEVAL], fsm := GetStart);
    var version := ps.(lines := ps.lines + [[]], fsm := VerStart);
    if s != [] {
      match s[0]
      case 'V' => TakeProgress(cfg, ps, s, 6, MsgOk, value, Ok); TakeProgress(cfg, ps, s, 8, MsgOk, version, Ok);
      case 'E' =>
        TakeProgress(cfg, ps, s, 8, MsgExists, ps, ProgrammingErr);
        TakeProgress(cfg, ps, s, 5, MsgOk, ps.(fsm := End), Ok);
      case 'O' => TakeProgress(cfg, ps, s, 4, MsgOk, ps, Ok);
      case 'S' =>
        TakeProgress(cfg, ps, s, 8, MsgStored, ps, ServerErr);
        TakeProgress(cfg, ps, s, 5, MsgOk, version.(fsm := StatStart), Ok);
      case 'D' => TakeProgress(cfg, ps, s, 9, MsgDeleted, ps, Ok);
      case 'N' =>
        TakeProgress(cfg, ps, s, 11, MsgNotFound, ps, Ok);
        TakeProgress(cfg, ps, s, 12, MsgNotStored, ps, Ok);
      case 'T' => TakeProgress(cfg, ps, s, 9, MsgTouched, ps, Ok);
      case 'C' => TakeProgress(cfg, ps, s, 1, MsgOk, ps, ProgrammingErr);
      case _ =>
    }
  }

  /** The loop of `process_packets`. */
  function Run(cfg: Config, ps: PState, s: Bytes): (r: Result)
    requires WellFormed(ps)
    ensures WellFormed(r.ps)
    decreases |s|, Rank(ps)
  {
    if CanEnd(cfg, ps) then Result(Ok, ps, s)
    else
      StepProgress(cfg, ps, s);
      match Step(cfg, ps, s)
      case Next(ps', used) => Run(cfg, ps', s[used..])
      case Stop(err, ps', used) => Result(err, ps', s[used..])
  }

  function Resume(ps: PState): (r: PState)
    ensures WellFormed(ps) ==> WellFormed(r)
  {
    if ps.fsm.End? || ps.fsm.Error? then ps.(fsm := Start) else ps
  }

  /** One call of `process_packets`. */
  function Process(cfg: Config, ps: PState, s: Bytes): (r: Result)
    requires WellFormed(ps)
    ensures WellFormed(r.ps)
  {
    Run(cfg, Resume(ps), s)
  }

  /** Part of a run: the loop came to `ps'` and `rest`, or stopped there with `err`. */
  predicate Progress(cfg: Config, ps: PState, s: Bytes, err: Err, ps': PState, rest: Bytes) {
    && WellFormed(ps) && WellFormed(ps')
    && (err == Ok ==>
          && (|rest| < |s| || (|rest| == |s| && Rank(ps') < Rank(ps)))
          && Run(cfg, ps, s) == Run(cfg, ps', rest))
    && (err != Ok ==> Run(cfg, ps, s) == Result(err, ps', rest))
  }

  /** `Progress`, sealed against unfolding.  A quantifier over a variable that does not matter
      means the same, but the solver looks behind it only when it meets an instance: a proof
      that has `Went` as a fact, and passes it on, is not burdened with what it says, and
      `OpenWent` states the instance where that is needed.  Other predicates of this project
      that are called sealed are made in the same way. */
  ghost predicate Went(cfg: Config, ps: PState, s: Bytes, err: Err, ps': PState, rest: Bytes) {
    forall t: bool :: ProgressFor(cfg, ps, s, err, ps', rest, t)
  }

  ghost predicate ProgressFor(cfg: Config, ps: PState, s: Bytes, err: Err, ps': PState, rest: Bytes, t: bool) {
    Progress(cfg, ps, s, err, ps', rest)
  }

  lemma OpenWent(cfg: Config, ps: PState, s: Bytes, err: Err, ps': PState, rest: Bytes)
    requires Went(cfg, ps, s, err, ps', rest)
    ensures Progress(cfg, ps, s, err, ps', rest)
  {
    assert ProgressFor(cfg, ps, s, err, ps', rest, true);
  }

  lemma TakesWent(cfg: Config, ps: PState, s: Bytes, err: Err, ps': PState, rest: Bytes)
    requires WellFormed(ps) && !CanEnd(cfg, ps) && Takes(Step(cfg, ps, s), s, err, ps', rest)
    ensures Went(cfg, ps, s, err, ps', rest)
  {
    StepProgress(cfg, ps, s);
    if Step(cfg, ps, s).Stop? {
      StopIsError(cfg, ps, s);
    }
    assert Progress(cfg, ps, s, err, ps', rest);
  }

  lemma WentThen(cfg: Config, ps: PState, s: Bytes, ps1: PState, s1: Bytes, err: Err, ps2: PState, s2: Bytes)
    requires Went(cfg, ps, s, Ok, ps1, s1) && Went(cfg, ps1, s1, err, ps2, s2)
    ensures Went(cfg, ps, s, err, ps2, s2)
  {
    OpenWent(cfg, ps, s, Ok, ps1, s1);
    OpenWent(cfg, ps1, s1, err, ps2, s2);
    assert Progress(cfg, ps, s, err, ps2, s2);
  }

  /** The loop is on its way to the result `whole`. */
  ghost predicate Leads(cfg: Config, ps: PState, s: Bytes, whole: Result) {
    forall t: bool :: LeadsFor(cfg, ps, s, whole, t)
  }

  ghost predicate LeadsFor(cfg: Config, ps: PState, s: Bytes, whole: Result, t: bool) {
    WellFormed(ps) && Run(cfg, ps, s) == whole
  }

  lemma LeadsFrom(cfg: Config, ps: PState, s: Bytes)
    requires WellFormed(ps)
    ensures Leads(cfg, Resume(ps), s, Process(cfg, ps, s))
  {
    assert LeadsFor(cfg, Resume(ps), s, Process(cfg, ps, s), true);
  }

  lemma LeadsOn(cfg: Config, ps: PState, s: Bytes, whole: Result, err: Err, ps': PState, rest: Bytes)
    requires Leads(cfg, ps, s, whole) && Went(cfg, ps, s, err, ps', rest)
    ensures err == Ok ==> Leads(cfg, ps', rest, whole) && (|rest| < |s| || (|rest| == |s| && Rank(ps') < Rank(ps)))
    ensures err != Ok ==> Result(err, ps', rest) == whole
  {
    assert LeadsFor(cfg, ps, s, whole, true);
    OpenWent(cfg, ps, s, err, ps', rest);
    if err == Ok {
      assert LeadsFor(cfg, ps', rest, whole, true);
    }
  }

  lemma LeadsHere(cfg: Config, ps: PState, s: Bytes, whole: Result)
    requires Leads(cfg, ps, s, whole) && CanEnd(cfg, ps)
    ensures Result(Ok, ps, s) == whole
  {
    assert LeadsFor(cfg, ps, s, whole, true);
  }

  /** A call that stops does so with an error. */
  lemma StopIsError(cfg: Config, ps: PState, s: Bytes)
    requires WellFormed(ps) && Step(cfg, ps, s).Stop?
    ensures Step(cfg, ps, s).err != Ok
  {
    if ps.fsm == Start && s != [] {
      match s[0]
      case _ =>
    }
  }
}
