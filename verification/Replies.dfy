/** The reply grammar as a printer, and the round trip through the parser. */
module Replies {
  import opened Octets
  import opened ReplyMachine
  import opened Chunking

  /** One reply of the server.  A number may be followed by padding: memcached pads
      the result of `decr` with blanks. */
  datatype Reply =
    | Value(key: Bytes, flags: nat, data: Bytes, cas: Option<nat>)
    | Stat(line: Bytes)
    | Msg(kind: MessageKind)
    | Number(value: nat, padding: Bytes)
    | EndReply
    | OkReply
    | VersionReply(line: Bytes)
    | ErrorReply(line: Bytes)
    | ClientErrorReply(line: Bytes)
    | ServerErrorReply(line: Bytes)

  const CRLF: Bytes := "\r\n"

  function MessageText(kind: MessageKind): (t: Bytes) {
    match kind
    case MsgExists => "EXISTS\r\n"
    case MsgOk => "OK\r\n"
    case MsgStored => "STORED\r\n"
    case MsgNotStored => "NOT_STORED\r\n"
    case MsgNotFound => "NOT_FOUND\r\n"
    case MsgDeleted => "DELETED\r\n"
    case MsgTouched => "TOUCHED\r\n"
  }

  const VALUE_: Bytes := "VALUE "
  const STAT_: Bytes := "STAT "
  const VERSION_: Bytes := "VERSION "
  const END_: Bytes := "END\r\n"
  const ERROR_: Bytes := "ERROR"
  const CLIENT_ERROR_: Bytes := "CLIENT_ERROR"
  const SERVER_ERROR_: Bytes := "SERVER_ERROR"
  const SP: Bytes := [' ']

  /** What follows the length of a value: nothing, or a cas number after a blank. */
  function CasText(cas: Option<nat>): Bytes {
    match cas
    case None => CRLF
    case Some(c) => SP + (Decimal(c) + CRLF)
  }

  function Print(r: Reply): Bytes {
    match r
    case Value(key, flags, data, cas) =>
      VALUE_ + (key + (SP + (Decimal(flags) + (SP + (Decimal(|data|) + (CasText(cas) + (data + CRLF)))))))
    case Stat(line) => STAT_ + (line + CRLF)
    case Msg(kind) => MessageText(kind)
    case Number(v, padding) => Decimal(v) + (padding + CRLF)
    case EndReply => END_
    case OkReply => MessageText(MsgOk)
    case VersionReply(line) => VERSION_ + (line + CRLF)
    case ErrorReply(line) => ERROR_ + (line + CRLF)
    case ClientErrorReply(line) => CLIENT_ERROR_ + (line + CRLF)
    case ServerErrorReply(line) => SERVER_ERROR_ + (line + CRLF)
  }

  /** What the protocol allows in each reply.  A value may be any bytes at all. */
  predicate WellFormedReply(r: Reply) {
    match r
    case Value(key, flags, data, cas) =>
      && 0 < |key| <= 250 && ' ' !in key
      && flags < TWO_32 && |data| < TWO_32
      && (cas.Some? ==> cas.value < TWO_64)
    case Number(v, padding) => v < TWO_64 && '\n' !in padding && (padding != [] ==> !IsDigit(padding[0]))
    case Stat(line) => '\n' !in line
    case VersionReply(line) => '\n' !in line
    case ErrorReply(line) => '\n' !in line
    case ClientErrorReply(line) => '\n' !in line
    case ServerErrorReply(line) => '\n' !in line
    case _ => true
  }

  /** Replies after which more may follow, in each mode. */
  predicate Continues(mode: ParserMode, r: Reply) {
    match mode
    case EndState => r.Value? || r.Stat?
    case Counting => (r.Msg? && r.kind != MsgOk) || r.Number?
  }

  predicate EndsWithError(r: Reply) {
    r.ErrorReply? || r.ClientErrorReply? || r.ServerErrorReply?
  }

  predicate EndsAnswer(mode: ParserMode, r: Reply) {
    EndsWithError(r) || (mode == EndState && (r.EndReply? || r.OkReply? || r.VersionReply?))
  }

  /** What may come from the server when `idx` of the keys have been answered: a final
      reply after replies that continue, or, when replies are counted, one reply for
      each key left. */
  predicate ConformsFrom(cfg: Config, idx: nat, rs: seq<Reply>) {
    && (forall i :: 0 <= i < |rs| ==> WellFormedReply(rs[i]))
    && (forall i :: 0 <= i < |rs| - 1 ==> Continues(cfg.mode, rs[i]))
    && (if rs != [] && EndsAnswer(cfg.mode, Last(rs)) then
          cfg.mode == Counting ==> idx + |rs| <= |cfg.keys|
        else
          && cfg.mode == Counting && idx + |rs| == |cfg.keys|
          && (rs != [] ==> Continues(Counting, Last(rs))))
  }

  /** A complete answer to the request described by `cfg`: everything asked for, or a
      stream cut short by an error line. */
  predicate Conforming(cfg: Config, rs: seq<Reply>) {
    ConformsFrom(cfg, 0, rs)
  }

  function PrintAll(rs: seq<Reply>): Bytes {
    if rs == [] then [] else Print(rs[0]) + PrintAll(rs[1..])
  }

  // ---- what the answer should be parsed to ----

  function KeyAt(cfg: Config, i: nat): Option<Bytes> {
    if i < |cfg.keys| then Some(cfg.keys[i]) else None
  }

  /** The result a reply stands for, added to the results so far. */
  function Deliver(cfg: Config, ps: PState, r: Reply): PState {
    match r
    case Value(key, flags, data, cas) =>
      var c := match cas case None => 0 case Some(c) => c;
      ps.(retrievals := ps.retrievals + [Retrieval(key, |key|, flags, |data|, 0, c, data)])
    case Stat(line) => ps.(lines := ps.lines + [line + ['\r']])
    case Msg(kind) =>
      ps.(messages := ps.messages + [Message(kind, KeyAt(cfg, ps.keyIdx))], keyIdx := ps.keyIdx + 1)
    case Number(v, _) =>
      ps.(numbers := ps.numbers + [Numeric(KeyAt(cfg, ps.keyIdx), v)], keyIdx := ps.keyIdx + 1)
    case EndReply => ps.(fsm := End)
    case OkReply => ps.(messages := ps.messages + [Message(MsgOk, None)], fsm := End)
    case VersionReply(line) => ps.(lines := ps.lines + [line + ['\r']], fsm := End)
    case _ => ps.(fsm := Error)
  }

  function DeliverAll(cfg: Config, ps: PState, rs: seq<Reply>): PState
    decreases |rs|
  {
    if rs == [] then ps else DeliverAll(cfg, Deliver(cfg, ps, rs[0]), rs[1..])
  }

  function ErrorOf(r: Reply): Err {
    match r
    case ErrorReply(_) => ProgrammingErr
    case ClientErrorReply(_) => ProgrammingErr
    case ServerErrorReply(_) => ServerErr
    case _ => Ok
  }

  function FinalError(rs: seq<Reply>): Err {
    if rs == [] then Ok else ErrorOf(Last(rs))
  }

  // ---- text that drives the parser from one state to another ----

  /** Parsing `text` takes the parser from `ps` to `ps'`, whatever comes after it. */
  ghost predicate Drives(cfg: Config, ps: PState, text: Bytes, ps': PState) {
    && WellFormed(ps) && WellFormed(ps')
    && forall more: Bytes :: Run(cfg, ps, text + more) == Run(cfg, ps', more)
  }

  lemma DrivesOn(cfg: Config, ps: PState, text: Bytes, ps': PState, more: Bytes)
    requires Drives(cfg, ps, text, ps')
    ensures Run(cfg, ps, text + more) == Run(cfg, ps', more)
  {
  }

  lemma DrivesFurther(cfg: Config, ps: PState, a: Bytes, ps1: PState, b: Bytes, ps2: PState, more: Bytes)
    requires Drives(cfg, ps, a, ps1) && Drives(cfg, ps1, b, ps2)
    ensures Run(cfg, ps, a + b + more) == Run(cfg, ps2, more)
  {
    Associate(a, b, more);
    DrivesOn(cfg, ps, a, ps1, b + more);
    DrivesOn(cfg, ps1, b, ps2, more);
  }

  lemma DrivesThen(cfg: Config, ps: PState, a: Bytes, ps1: PState, b: Bytes, ps2: PState)
    requires Drives(cfg, ps, a, ps1) && Drives(cfg, ps1, b, ps2)
    ensures Drives(cfg, ps, a + b, ps2)
  {
    forall more: Bytes ensures Run(cfg, ps, a + b + more) == Run(cfg, ps2, more) {
      DrivesFurther(cfg, ps, a, ps1, b, ps2, more);
    }
  }

  lemma DrivesNothing(cfg: Config, ps: PState)
    requires WellFormed(ps)
    ensures Drives(cfg, ps, [], ps)
  {
    forall more: Bytes ensures Run(cfg, ps, [] + more) == Run(cfg, ps, more) {
      assert [] + more == more;
    }
  }

  /** One transition that uses up exactly `text`. */
  lemma DrivesStep(cfg: Config, ps: PState, text: Bytes, ps': PState)
    requires WellFormed(ps) && !CanEnd(cfg, ps)
    requires forall more: Bytes :: Step(cfg, ps, text + more) == Next(ps', |text|)
    ensures Drives(cfg, ps, text, ps')
  {
    StepProgress(cfg, ps, text + []);
    forall more: Bytes ensures Run(cfg, ps, text + more) == Run(cfg, ps', more) {
      assert Step(cfg, ps, text + more) == Next(ps', |text|);
      assert (text + more)[|text|..] == more;
    }
  }

  /** A transition that looks at `text` without using it, and then the rest. */
  lemma DrivesPeek(cfg: Config, ps: PState, text: Bytes, ps1: PState, ps2: PState)
    requires WellFormed(ps) && !CanEnd(cfg, ps) && Drives(cfg, ps1, text, ps2)
    requires forall more: Bytes :: Step(cfg, ps, text + more) == Next(ps1, 0)
    ensures Drives(cfg, ps, text, ps2)
  {
    forall more: Bytes ensures Run(cfg, ps, text + more) == Run(cfg, ps2, more) {
      assert Step(cfg, ps, text + more) == Next(ps1, 0);
      assert (text + more)[0..] == text + more;
    }
  }

  lemma FindDelimiter(c: octet, w: Bytes, t: Bytes)
    requires c !in w
    ensures var s := w + [c] + t;
            IndexOf(c, s) == |w| && c in s && s[..|w|] == w
  {
    var s := w + [c] + t;
    assert s[..|w|] == w && s[|w|] == c;
    IndexOfIsFirst(c, s, |w|);
  }

  /** Printing a number and reading it back, whatever follows it. */
  lemma ReadUnsignedDecimal(v: nat, c: octet, t: Bytes)
    requires !IsDigit(c)
    ensures ReadUnsigned(Decimal(v) + [c] + t) == Parsed(Wrap64(v), |Decimal(v)|)
  {
    var d := Decimal(v);
    var s := d + [c] + t;
    assert s[..|d|] == d && s[|d|] == c;
    DigitCountIsLongest(s, |d|);
  }

  lemma ReadDecimal(v: nat, c: octet, t: Bytes)
    requires !IsDigit(c) && v < TWO_64
    ensures ReadUnsigned(Decimal(v) + [c] + t) == Parsed(v, |Decimal(v)|)
  {
    ReadUnsignedDecimal(v, c, t);
  }

  lemma SetLastAppended<T>(base: seq<T>, x: T, y: T)
    ensures Last(base + [x]) == x && SetLast(base + [x], y) == base + [y]
  {
  }

  // ---- one VALUE record ----

  lemma ValueWord(cfg: Config, ps: PState)
    requires ps.fsm == Start && !CanEnd(cfg, ps)
    ensures Drives(cfg, ps, VALUE_, ps.(retrievals := ps.retrievals + [FRESH_RETRIEVAL], fsm := GetStart))
  {
    var ps' := ps.(retrievals := ps.retrievals + [FRESH_RETRIEVAL], fsm := GetStart);
    forall more: Bytes ensures Step(cfg, ps, VALUE_ + more) == Next(ps', 6) {
      var s := VALUE_ + more;
      assert s[0] == 'V' && s[1] == 'A';
    }
    DrivesStep(cfg, ps, VALUE_, ps');
  }

  lemma ValueKey(cfg: Config, ps: PState, base: seq<Retrieval>, r: Retrieval, key: Bytes)
    requires ps.fsm == GetStart && ps.retrievals == base + [r] && r.cas == 0 && !CanEnd(cfg, ps)
    requires ' ' !in key && |key| <= 250
    ensures Drives(cfg, ps, key + [' '], ps.(retrievals := base + [r.(key := key, keyLen := |key|)], fsm := GetKey))
  {
    var ps' := ps.(retrievals := base + [r.(key := key, keyLen := |key|)], fsm := GetKey);
    SetLastAppended(base, r, r.(key := key, keyLen := |key|));
    forall more: Bytes ensures Step(cfg, ps, key + [' '] + more) == Next(ps', |key + [' ']|) {
      FindDelimiter(' ', key, more);
    }
    DrivesStep(cfg, ps, key + [' '], ps');
  }

  lemma ValueFlags(cfg: Config, ps: PState, base: seq<Retrieval>, r: Retrieval, flags: nat)
    requires ps.fsm == GetKey && ps.retrievals == base + [r] && r.cas == 0 && !CanEnd(cfg, ps) && flags < TWO_32
    ensures Drives(cfg, ps, Decimal(flags) + [' '], ps.(retrievals := base + [r.(flags := flags)], fsm := GetFlags))
  {
    var ps' := ps.(retrievals := base + [r.(flags := flags)], fsm := GetFlags);
    SetLastAppended(base, r, r.(flags := flags));
    forall more: Bytes ensures Step(cfg, ps, Decimal(flags) + [' '] + more) == Next(ps', |Decimal(flags) + [' ']|) {
      ReadDecimal(flags, ' ', more);
    }
    DrivesStep(cfg, ps, Decimal(flags) + [' '], ps');
  }

  lemma ValueLength(cfg: Config, ps: PState, base: seq<Retrieval>, r: Retrieval, n: nat, c: octet)
    requires ps.fsm == GetFlags && ps.retrievals == base + [r] && r.cas == 0 && !CanEnd(cfg, ps) && n < TWO_32
    requires !IsDigit(c)
    ensures Drives(cfg, ps, Decimal(n) + [c],
                   ps.(retrievals := base + [r.(bytes := n, bytesRemain := Inc32(n))], fsm := GetBytes))
  {
    var r' := r.(bytes := n, bytesRemain := Inc32(n));
    var ps' := ps.(retrievals := base + [r'], fsm := GetBytes);
    SetLastAppended(base, r, r');
    forall more: Bytes ensures Step(cfg, ps, Decimal(n) + [c] + more) == Next(ps', |Decimal(n) + [c]|) {
      ReadDecimal(n, c, more);
    }
    DrivesStep(cfg, ps, Decimal(n) + [c], ps');
  }

  lemma ValueCas(cfg: Config, ps: PState, base: seq<Retrieval>, r: Retrieval, cas: nat)
    requires ps.fsm == GetBytes && ps.retrievals == base + [r] && r.cas == 0 && !CanEnd(cfg, ps) && cas < TWO_64
    ensures Drives(cfg, ps, Decimal(cas) + ['\r'], ps.(retrievals := base + [r.(cas := cas)], fsm := GetCas))
  {
    var ps' := ps.(retrievals := base + [r.(cas := cas)], fsm := GetCas);
    SetLastAppended(base, r, r.(cas := cas));
    forall more: Bytes ensures Step(cfg, ps, Decimal(cas) + ['\r'] + more) == Next(ps', |Decimal(cas) + ['\r']|) {
      ReadDecimal(cas, '\r', more);
      assert (Decimal(cas) + ['\r'] + more)[0] == Decimal(cas)[0];
    }
    DrivesStep(cfg, ps, Decimal(cas) + ['\r'], ps');
  }

  /** Adding one to a length and taking it away again, as `uint32_t` arithmetic. */
  lemma CountDown(n: nat)
    requires n < TWO_32
    ensures Dec32(Inc32(n)) == n
  {
  }

  lemma ValueLineEnd(cfg: Config, ps: PState, base: seq<Retrieval>, r: Retrieval)
    requires ps.fsm == GetCas && ps.retrievals == base + [r] && !CanEnd(cfg, ps)
    requires r.bytes < TWO_32 && r.bytesRemain == Inc32(r.bytes)
    ensures Drives(cfg, ps, ['\n'], ps.(retrievals := base + [r.(bytesRemain := r.bytes)], fsm := GetValueRemaining))
  {
    var ps' := ps.(retrievals := base + [r.(bytesRemain := r.bytes)], fsm := GetValueRemaining);
    SetLastAppended(base, r, r.(bytesRemain := r.bytes));
    CountDown(r.bytes);
    DrivesStep(cfg, ps, ['\n'], ps');
  }

  /** The line end of a record without a cas number is recognised by looking at it. */
  lemma ValueNoCas(cfg: Config, ps: PState, base: seq<Retrieval>, r: Retrieval)
    requires ps.fsm == GetBytes && ps.retrievals == base + [r] && r.cas == 0 && !CanEnd(cfg, ps)
    requires r.bytes < TWO_32 && r.bytesRemain == Inc32(r.bytes)
    ensures Drives(cfg, ps, ['\n'], ps.(retrievals := base + [r.(bytesRemain := r.bytes)], fsm := GetValueRemaining))
  {
    SetLastAppended(base, r, r.(cas := 0));
    ValueLineEnd(cfg, ps.(fsm := GetCas), base, r);
    DrivesPeek(cfg, ps, ['\n'], ps.(fsm := GetCas),
               ps.(retrievals := base + [r.(bytesRemain := r.bytes)], fsm := GetValueRemaining));
  }

  lemma ValueData(cfg: Config, ps: PState, base: seq<Retrieval>, r: Retrieval, data: Bytes)
    requires ps.fsm == GetValueRemaining && ps.retrievals == base + [r] && !CanEnd(cfg, ps)
    requires r.bytes == |data| == r.bytesRemain && r.data == []
    ensures Drives(cfg, ps, data, ps.(retrievals := base + [r.(data := data, bytesRemain := 0)]))
  {
    var r' := r.(data := data, bytesRemain := 0);
    if data == [] {
      DrivesNothing(cfg, ps);
      assert r' == r && ps == ps.(retrievals := base + [r']);
    } else {
      SetLastAppended(base, r, r');
      forall more: Bytes ensures Step(cfg, ps, data + more) == Next(ps.(retrievals := base + [r']), |data|) {
        assert (data + more)[..|data|] == data;
      }
      DrivesStep(cfg, ps, data, ps.(retrievals := base + [r']));
    }
  }

  lemma ValueDataEnd(cfg: Config, ps: PState)
    requires ps.fsm == GetValueRemaining && ps.retrievals != [] && Last(ps.retrievals).bytesRemain == 0 && !CanEnd(cfg, ps)
    ensures Drives(cfg, ps, CRLF, ps.(fsm := Start))
  {
    DrivesStep(cfg, ps, CRLF, ps.(fsm := Start));
  }

  /** From "VALUE " to the byte after the length. */
  lemma ValueHeader(cfg: Config, ps: PState, key: Bytes, flags: nat, n: nat, c: octet)
    requires ps.fsm == Start && !CanEnd(cfg, ps)
    requires ' ' !in key && |key| <= 250 && flags < TWO_32 && n < TWO_32 && !IsDigit(c)
    ensures var r := Retrieval(key, |key|, flags, n, Inc32(n), 0, []);
            Drives(cfg, ps, VALUE_ + (key + [' ']) + (Decimal(flags) + [' ']) + (Decimal(n) + [c]),
                   ps.(retrievals := ps.retrievals + [r], fsm := GetBytes))
  {
    var base := ps.retrievals;
    var r0 := FRESH_RETRIEVAL;
    var r1 := r0.(key := key, keyLen := |key|);
    var r2 := r1.(flags := flags);
    var r3 := r2.(bytes := n, bytesRemain := Inc32(n));
    var ps0 := ps.(retrievals := base + [r0], fsm := GetStart);
    var ps1 := ps.(retrievals := base + [r1], fsm := GetKey);
    var ps2 := ps.(retrievals := base + [r2], fsm := GetFlags);
    var ps3 := ps.(retrievals := base + [r3], fsm := GetBytes);
    ValueWord(cfg, ps);
    ValueKey(cfg, ps0, base, r0, key);
    DrivesThen(cfg, ps, VALUE_, ps0, key + [' '], ps1);
    ValueFlags(cfg, ps1, base, r1, flags);
    DrivesThen(cfg, ps, VALUE_ + (key + [' ']), ps1, Decimal(flags) + [' '], ps2);
    ValueLength(cfg, ps2, base, r2, n, c);
    DrivesThen(cfg, ps, VALUE_ + (key + [' ']) + (Decimal(flags) + [' ']), ps2, Decimal(n) + [c], ps3);
  }

  /** The rest of the line of a record: the cas number, if any, and the line feed. */
  function CasTail(cas: Option<nat>): Bytes {
    match cas
    case None => ['\n']
    case Some(c) => Decimal(c) + ['\r'] + ['\n']
  }

  function CasValue(cas: Option<nat>): nat {
    match cas case None => 0 case Some(c) => c
  }

  lemma ValueTail(cfg: Config, ps: PState, base: seq<Retrieval>, r: Retrieval, cas: Option<nat>)
    requires ps.fsm == GetBytes && ps.retrievals == base + [r] && r.cas == 0 && !CanEnd(cfg, ps)
    requires r.bytes < TWO_32 && r.bytesRemain == Inc32(r.bytes) && CasValue(cas) < TWO_64
    ensures Drives(cfg, ps, CasTail(cas),
                   ps.(retrievals := base + [r.(cas := CasValue(cas), bytesRemain := r.bytes)], fsm := GetValueRemaining))
  {
    match cas
    case None =>
      ValueNoCas(cfg, ps, base, r);
      assert r.(cas := 0, bytesRemain := r.bytes) == r.(bytesRemain := r.bytes);
    case Some(c) =>
      ValueCas(cfg, ps, base, r, c);
      var r1 := r.(cas := c);
      var ps1 := ps.(retrievals := base + [r1], fsm := GetCas);
      ValueLineEnd(cfg, ps1, base, r1);
      DrivesThen(cfg, ps, Decimal(c) + ['\r'], ps1, ['\n'],
                 ps.(retrievals := base + [r.(cas := c, bytesRemain := r.bytes)], fsm := GetValueRemaining));
  }

  /** The data and the line end after it. */
  lemma ValueBody(cfg: Config, ps: PState, base: seq<Retrieval>, r: Retrieval, data: Bytes)
    requires ps.fsm == GetValueRemaining && ps.retrievals == base + [r] && !CanEnd(cfg, ps)
    requires r.bytes == |data| == r.bytesRemain && r.data == []
    ensures Drives(cfg, ps, data + CRLF, ps.(retrievals := base + [r.(data := data, bytesRemain := 0)], fsm := Start))
  {
    var ps1 := ps.(retrievals := base + [r.(data := data, bytesRemain := 0)]);
    ValueData(cfg, ps, base, r, data);
    assert Last(ps1.retrievals) == r.(data := data, bytesRemain := 0);
    ValueDataEnd(cfg, ps1);
    DrivesThen(cfg, ps, data, ps1, CRLF, ps1.(fsm := Start));
  }

  lemma ValueShape(v: Reply)
    requires v.Value?
    ensures Print(v) ==
            VALUE_ + (v.key + [' ']) + (Decimal(v.flags) + [' '])
            + (Decimal(|v.data|) + [if v.cas.None? then '\r' else ' ']) + (CasTail(v.cas) + (v.data + CRLF))
  {
    var c: octet := if v.cas.None? then '\r' else ' ';
    assert CasText(v.cas) == [c] + CasTail(v.cas);
    assert CasText(v.cas) + (v.data + CRLF) == [c] + (CasTail(v.cas) + (v.data + CRLF));
    Regroup(VALUE_, v.key, SP, Decimal(v.flags), Decimal(|v.data|), [c], CasTail(v.cas) + (v.data + CRLF));
  }

  lemma Regroup(a: Bytes, b: Bytes, sp: Bytes, c: Bytes, d: Bytes, e: Bytes, f: Bytes)
    ensures a + (b + (sp + (c + (sp + (d + (e + f)))))) == a + (b + sp) + (c + sp) + (d + e) + f
  {
    Associate(d, e, f);
    Associate(c, sp, d + e + f);
    Associate(b, sp, c + sp + (d + e + f));
    Associate(a, b + sp, c + sp + (d + e + f));
    Associate(a + (b + sp), c + sp, d + e + f);
    Associate(a + (b + sp) + (c + sp), d + e, f);
  }

  lemma Associate(a: Bytes, b: Bytes, c: Bytes)
    ensures (a + b) + c == a + (b + c)
  {
  }

  /** A VALUE record is parsed to the result it was printed from; the data may contain
      any bytes, line ends and "END" included. */
  lemma ValueRecord(cfg: Config, ps: PState, v: Reply)
    requires ps.fsm == Start && !CanEnd(cfg, ps) && v.Value? && WellFormedReply(v)
    ensures Drives(cfg, ps, Print(v), Deliver(cfg, ps, v))
  {
    var n, base := |v.data|, ps.retrievals;
    var c: octet := if v.cas.None? then '\r' else ' ';
    var r1 := Retrieval(v.key, |v.key|, v.flags, n, Inc32(n), 0, []);
    var ps1 := ps.(retrievals := base + [r1], fsm := GetBytes);
    var header := VALUE_ + (v.key + [' ']) + (Decimal(v.flags) + [' ']) + (Decimal(n) + [c]);
    ValueHeader(cfg, ps, v.key, v.flags, n, c);
    ValueRest(cfg, ps1, base, r1, v.cas, v.data);
    var ps2 := ps.(retrievals := base + [r1.(cas := CasValue(v.cas), data := v.data, bytesRemain := 0)]);
    assert ps2 == Deliver(cfg, ps, v);
    DrivesThen(cfg, ps, header, ps1, CasTail(v.cas) + (v.data + CRLF), ps2);
    ValueShape(v);
  }

  lemma ValueRest(cfg: Config, ps: PState, base: seq<Retrieval>, r: Retrieval, cas: Option<nat>, data: Bytes)
    requires ps.fsm == GetBytes && ps.retrievals == base + [r] && r.cas == 0 && !CanEnd(cfg, ps)
    requires r.data == [] && r.bytes == |data| < TWO_32 && r.bytesRemain == Inc32(r.bytes) && CasValue(cas) < TWO_64
    ensures Drives(cfg, ps, CasTail(cas) + (data + CRLF),
                   ps.(retrievals := base + [r.(cas := CasValue(cas), data := data, bytesRemain := 0)], fsm := Start))
  {
    var r2 := r.(cas := CasValue(cas), bytesRemain := r.bytes);
    var ps2 := ps.(retrievals := base + [r2], fsm := GetValueRemaining);
    ValueTail(cfg, ps, base, r, cas);
    ValueBody(cfg, ps2, base, r2, data);
    DrivesThen(cfg, ps, CasTail(cas), ps2, data + CRLF,
               ps2.(retrievals := base + [r2.(data := data, bytesRemain := 0)], fsm := Start));
  }

  // ---- the other replies that may be followed by more ----

  lemma StepOnMessage(cfg: Config, ps: PState, kind: MessageKind, t: Bytes)
    requires ps.fsm == Start
    ensures var s := MessageText(kind) + t;
            StepStart(cfg, ps, s) == TakeMessage(cfg, ps, s, |MessageText(kind)|, kind)
  {
    var s := MessageText(kind) + t;
    match kind
    case MsgExists => assert s[0] == 'E' && s[1] == 'X';
    case MsgOk => assert s[0] == 'O';
    case MsgStored => assert s[0] == 'S' && s[1] == 'T' && s[2] == 'O';
    case MsgNotStored => assert s[0] == 'N' && s[4] == 'S';
    case MsgNotFound => assert s[0] == 'N' && s[4] == 'F';
    case MsgDeleted => assert s[0] == 'D';
    case MsgTouched => assert s[0] == 'T';
  }

  lemma MessageReply(cfg: Config, ps: PState, kind: MessageKind)
    requires ps.fsm == Start && !CanEnd(cfg, ps) && (kind == MsgOk || ps.keyIdx < |cfg.keys|)
    ensures Drives(cfg, ps, MessageText(kind), Deliver(cfg, ps, if kind == MsgOk then OkReply else Msg(kind)))
  {
    var ps' := Deliver(cfg, ps, if kind == MsgOk then OkReply else Msg(kind));
    forall more: Bytes ensures Step(cfg, ps, MessageText(kind) + more) == Next(ps', |MessageText(kind)|) {
      StepOnMessage(cfg, ps, kind, more);
    }
    DrivesStep(cfg, ps, MessageText(kind), ps');
  }

  lemma NumberDigits(cfg: Config, ps: PState, base: seq<Numeric>, v: nat, c: octet)
    requires ps.fsm == IncrDecrStart && ps.numbers == base + [FRESH_NUMERIC] && !CanEnd(cfg, ps)
    requires ps.keyIdx < |cfg.keys| && v < TWO_64 && !IsDigit(c)
    ensures Drives(cfg, ps, Decimal(v) + [c],
                   ps.(numbers := base + [Numeric(Some(cfg.keys[ps.keyIdx]), v)], fsm := IncrDecrRemaining))
  {
    var n := Numeric(Some(cfg.keys[ps.keyIdx]), v);
    var ps' := ps.(numbers := base + [n], fsm := IncrDecrRemaining);
    SetLastAppended(base, FRESH_NUMERIC, n);
    forall more: Bytes ensures Step(cfg, ps, Decimal(v) + [c] + more) == Next(ps', |Decimal(v) + [c]|) {
      ReadDecimal(v, c, more);
    }
    DrivesStep(cfg, ps, Decimal(v) + [c], ps');
  }

  lemma NumberText(cfg: Config, ps: PState, v: nat, c: octet)
    requires ps.fsm == Start && !CanEnd(cfg, ps) && ps.keyIdx < |cfg.keys| && v < TWO_64 && !IsDigit(c)
    ensures Drives(cfg, ps, Decimal(v) + [c],
                   ps.(numbers := ps.numbers + [Numeric(Some(cfg.keys[ps.keyIdx]), v)], fsm := IncrDecrRemaining))
  {
    var s := Decimal(v) + [c];
    NumberDigits(cfg, ps.(numbers := ps.numbers + [FRESH_NUMERIC], fsm := IncrDecrStart), ps.numbers, v, c);
    DigitStarts(cfg, ps, s, ps.(numbers := ps.numbers + [Numeric(Some(cfg.keys[ps.keyIdx]), v)], fsm := IncrDecrRemaining));
  }

  /** A digit is only looked at before the number is read. */
  lemma DigitStarts(cfg: Config, ps: PState, s: Bytes, ps2: PState)
    requires ps.fsm == Start && !CanEnd(cfg, ps) && s != [] && IsDigit(s[0])
    requires Drives(cfg, ps.(numbers := ps.numbers + [FRESH_NUMERIC], fsm := IncrDecrStart), s, ps2)
    ensures Drives(cfg, ps, s, ps2)
  {
    var ps1 := ps.(numbers := ps.numbers + [FRESH_NUMERIC], fsm := IncrDecrStart);
    forall more: Bytes ensures Step(cfg, ps, s + more) == Next(ps1, 0) {
      assert (s + more)[0] == s[0];
    }
    DrivesPeek(cfg, ps, s, ps1, ps2);
  }

  lemma NumberEnd(cfg: Config, ps: PState, w: Bytes)
    requires ps.fsm == IncrDecrRemaining && ps.numbers != [] && !CanEnd(cfg, ps) && '\n' !in w
    ensures Drives(cfg, ps, w + ['\n'], ps.(keyIdx := ps.keyIdx + 1, fsm := Start))
  {
    var ps' := ps.(keyIdx := ps.keyIdx + 1, fsm := Start);
    forall more: Bytes ensures Step(cfg, ps, w + ['\n'] + more) == Next(ps', |w + ['\n']|) {
      FindDelimiter('\n', w, more);
    }
    DrivesStep(cfg, ps, w + ['\n'], ps');
  }

  lemma NumberLine(cfg: Config, ps: PState, v: nat, c: octet, w: Bytes)
    requires ps.fsm == Start && !CanEnd(cfg, ps) && ps.keyIdx < |cfg.keys| && v < TWO_64
    requires !IsDigit(c) && '\n' !in w
    ensures Drives(cfg, ps, Decimal(v) + [c] + (w + ['\n']),
                   ps.(numbers := ps.numbers + [Numeric(Some(cfg.keys[ps.keyIdx]), v)], keyIdx := ps.keyIdx + 1))
  {
    var ps1 := ps.(numbers := ps.numbers + [Numeric(Some(cfg.keys[ps.keyIdx]), v)], fsm := IncrDecrRemaining);
    var ps2 := ps.(numbers := ps.numbers + [Numeric(Some(cfg.keys[ps.keyIdx]), v)], keyIdx := ps.keyIdx + 1);
    NumberText(cfg, ps, v, c);
    NumberEnd(cfg, ps1, w);
    assert ps2 == ps1.(keyIdx := ps1.keyIdx + 1, fsm := Start);
    DrivesThen(cfg, ps, Decimal(v) + [c], ps1, w + ['\n'], ps2);
  }

  lemma NumberReply(cfg: Config, ps: PState, r: Reply)
    requires ps.fsm == Start && !CanEnd(cfg, ps) && ps.keyIdx < |cfg.keys| && r.Number? && WellFormedReply(r)
    ensures Drives(cfg, ps, Print(r), Deliver(cfg, ps, r))
  {
    var line := r.padding + ['\r'];
    NumberShape(r, line);
    assert Deliver(cfg, ps, r) ==
           ps.(numbers := ps.numbers + [Numeric(Some(cfg.keys[ps.keyIdx]), r.value)], keyIdx := ps.keyIdx + 1);
    NumberLine(cfg, ps, r.value, line[0], line[1..]);
  }

  lemma NumberShape(r: Reply, line: Bytes)
    requires r.Number? && WellFormedReply(r) && line == r.padding + ['\r']
    ensures Print(r) == Decimal(r.value) + [line[0]] + (line[1..] + ['\n'])
    ensures !IsDigit(line[0]) && '\n' !in line[1..]
  {
    assert r.padding + CRLF == [line[0]] + (line[1..] + ['\n']);
    Associate(Decimal(r.value), [line[0]], line[1..] + ['\n']);
    assert forall i :: 0 <= i < |line[1..]| ==> line[1..][i] == line[i + 1] != '\n';
  }

  /** A line of text after its keyword has been skipped. */
  lemma LineText(cfg: Config, ps: PState, base: seq<Bytes>, line: Bytes)
    requires (ps.fsm == StatStart || ps.fsm == VerStart) && ps.lines == base + [[]] && !CanEnd(cfg, ps)
    requires '\n' !in line
    ensures Drives(cfg, ps, line + CRLF,
                   ps.(lines := base + [line + ['\r']], fsm := if ps.fsm == VerStart then End else Start))
  {
    var w := line + ['\r'];
    var ps' := ps.(lines := base + [w], fsm := if ps.fsm == VerStart then End else Start);
    SetLastAppended(base, [], w);
    forall more: Bytes ensures Step(cfg, ps, w + ['\n'] + more) == Next(ps', |w + ['\n']|) {
      FindDelimiter('\n', w, more);
    }
    assert line + CRLF == w + ['\n'];
    DrivesStep(cfg, ps, line + CRLF, ps');
  }

  lemma StatWord(cfg: Config, ps: PState)
    requires ps.fsm == Start && !CanEnd(cfg, ps)
    ensures Drives(cfg, ps, STAT_, ps.(lines := ps.lines + [[]], fsm := StatStart))
    ensures Drives(cfg, ps, VERSION_, ps.(lines := ps.lines + [[]], fsm := VerStart))
  {
    var stat, version := ps.(lines := ps.lines + [[]], fsm := StatStart), ps.(lines := ps.lines + [[]], fsm := VerStart);
    forall more: Bytes ensures Step(cfg, ps, STAT_ + more) == Next(stat, 5) {
      var s := STAT_ + more;
      assert s[0] == 'S' && s[1] == 'T' && s[2] == 'A';
    }
    DrivesStep(cfg, ps, STAT_, stat);
    forall more: Bytes ensures Step(cfg, ps, VERSION_ + more) == Next(version, 8) {
      var s := VERSION_ + more;
      assert s[0] == 'V' && s[1] == 'E';
    }
    DrivesStep(cfg, ps, VERSION_, version);
  }

  lemma LineReply(cfg: Config, ps: PState, r: Reply)
    requires ps.fsm == Start && !CanEnd(cfg, ps) && (r.Stat? || r.VersionReply?) && '\n' !in r.line
    ensures Drives(cfg, ps, Print(r), Deliver(cfg, ps, r))
  {
    StatWord(cfg, ps);
    var ps1 := ps.(lines := ps.lines + [[]], fsm := if r.Stat? then StatStart else VerStart);
    LineText(cfg, ps1, ps.lines, r.line);
    DrivesThen(cfg, ps, if r.Stat? then STAT_ else VERSION_, ps1, r.line + CRLF, Deliver(cfg, ps, r));
  }

  lemma EndWord(cfg: Config, ps: PState)
    requires ps.fsm == Start && !CanEnd(cfg, ps)
    ensures Drives(cfg, ps, END_, ps.(fsm := End))
  {
    forall more: Bytes ensures Step(cfg, ps, END_ + more) == Next(ps.(fsm := End), 5) {
      var s := END_ + more;
      assert s[0] == 'E' && s[1] == 'N';
    }
    DrivesStep(cfg, ps, END_, ps.(fsm := End));
  }

  /** Every reply except an error line takes the parser to the state that has its result. */
  lemma ReplyDelivered(cfg: Config, ps: PState, r: Reply)
    requires ps.fsm == Start && !CanEnd(cfg, ps) && WellFormedReply(r) && !EndsWithError(r)
    requires r.Msg? || r.Number? ==> ps.keyIdx < |cfg.keys|
    requires r.Msg? ==> r.kind != MsgOk
    ensures Drives(cfg, ps, Print(r), Deliver(cfg, ps, r))
  {
    if r.Value? {
      ValueRecord(cfg, ps, r);
    } else if r.Stat? || r.VersionReply? {
      LineReply(cfg, ps, r);
    } else if r.Msg? {
      MessageReply(cfg, ps, r.kind);
    } else if r.OkReply? {
      MessageReply(cfg, ps, MsgOk);
    } else if r.Number? {
      NumberReply(cfg, ps, r);
    } else {
      EndWord(cfg, ps);
    }
  }

  // ---- error lines ----

  function ErrorWord(r: Reply): Bytes
    requires EndsWithError(r)
  {
    if r.ErrorReply? then ERROR_ else if r.ClientErrorReply? then CLIENT_ERROR_ else SERVER_ERROR_
  }

  lemma StepOnErrorWord(cfg: Config, ps: PState, r: Reply, s: Bytes)
    requires ps.fsm == Start && EndsWithError(r) && |s| >= 3 && s[..3] == ErrorWord(r)[..3]
    ensures StepStart(cfg, ps, s) == TakeErrorLine(ps, s, ErrorOf(r))
  {
    var w := s[..3];
    assert s[0] == w[0] && s[1] == w[1] && s[2] == w[2];
  }

  lemma ErrorReplyShape(r: Reply, t: Bytes)
    requires EndsWithError(r) && '\n' !in r.line
    ensures var w := ErrorWord(r) + (r.line + ['\r']); var s := w + ['\n'] + t;
            Print(r) + t == s && |s| >= 3 && s[..3] == ErrorWord(r)[..3] && '\n' !in w
  {
    assert Print(r) == ErrorWord(r) + (r.line + CRLF);
  }

  lemma ErrorText(cfg: Config, ps: PState, r: Reply, w: Bytes, t: Bytes)
    requires ps.fsm == Start && !CanEnd(cfg, ps) && EndsWithError(r) && '\n' !in w
    requires var s := w + ['\n'] + t; |s| >= 3 && s[..3] == ErrorWord(r)[..3]
    ensures Run(cfg, ps, w + ['\n'] + t) == Result(ErrorOf(r), ps.(fsm := Error), t)
  {
    var s := w + ['\n'] + t;
    StepOnErrorWord(cfg, ps, r, s);
    FindDelimiter('\n', w, t);
    assert s[|w| + 1..] == t;
  }

  lemma ErrorLine(cfg: Config, ps: PState, r: Reply, t: Bytes)
    requires ps.fsm == Start && !CanEnd(cfg, ps) && EndsWithError(r) && WellFormedReply(r)
    ensures Run(cfg, ps, Print(r) + t) == Result(ErrorOf(r), ps.(fsm := Error), t)
  {
    ErrorReplyShape(r, t);
    ErrorText(cfg, ps, r, ErrorWord(r) + (r.line + ['\r']), t);
  }

  lemma FinalReply(cfg: Config, ps: PState, r: Reply, t: Bytes)
    requires ps.fsm == Start && !CanEnd(cfg, ps) && WellFormedReply(r) && EndsAnswer(cfg.mode, r)
    ensures Run(cfg, ps, Print(r) + t) == Result(ErrorOf(r), Deliver(cfg, ps, r), t)
  {
    if EndsWithError(r) {
      ErrorLine(cfg, ps, r, t);
    } else {
      ReplyDelivered(cfg, ps, r);
      assert CanEnd(cfg, Deliver(cfg, ps, r));
    }
  }

  // ---- whole answers ----

  lemma ContinuingReply(cfg: Config, ps: PState, r: Reply, t: Bytes)
    requires ps.fsm == Start && !CanEnd(cfg, ps) && WellFormedReply(r) && Continues(cfg.mode, r)
    requires cfg.mode == Counting ==> ps.keyIdx < |cfg.keys|
    ensures Run(cfg, ps, Print(r) + t) == Run(cfg, Deliver(cfg, ps, r), t) && Deliver(cfg, ps, r).fsm == Start
  {
    ReplyDelivered(cfg, ps, r);
  }

  /** What an answer of more than its last line begins with. */
  lemma ConformsFirst(cfg: Config, idx: nat, rs: seq<Reply>)
    requires ConformsFrom(cfg, idx, rs) && rs != [] && !(|rs| == 1 && EndsAnswer(cfg.mode, rs[0]))
    ensures WellFormedReply(rs[0]) && Continues(cfg.mode, rs[0])
    ensures cfg.mode == Counting ==> idx < |cfg.keys|
    ensures ConformsFrom(cfg, if cfg.mode == Counting then idx + 1 else idx, rs[1..])
  {
    var rest := rs[1..];
    assert forall i :: 0 <= i < |rest| ==> rest[i] == rs[i + 1];
    assert rest != [] ==> Last(rest) == Last(rs);
  }

  lemma DeliverContinuing(cfg: Config, ps: PState, r: Reply)
    requires ps.fsm == Start && Continues(cfg.mode, r)
    ensures Deliver(cfg, ps, r).keyIdx == if cfg.mode == Counting then ps.keyIdx + 1 else ps.keyIdx
    ensures Deliver(cfg, ps, r).fsm == Start
  {
  }

  lemma ContinuingFirst(cfg: Config, ps: PState, rs: seq<Reply>)
    requires rs != [] && Continues(cfg.mode, rs[0])
    ensures PrintAll(rs) == Print(rs[0]) + PrintAll(rs[1..])
    ensures DeliverAll(cfg, ps, rs) == DeliverAll(cfg, Deliver(cfg, ps, rs[0]), rs[1..])
    ensures FinalError(rs) == FinalError(rs[1..])
  {
    if |rs| > 1 {
      assert Last(rs[1..]) == Last(rs);
    }
  }

  lemma {:induction false} RunAll(cfg: Config, ps: PState, rs: seq<Reply>, t: Bytes)
    requires ps.fsm == Start && ConformsFrom(cfg, ps.keyIdx, rs)
    ensures Run(cfg, ps, PrintAll(rs) + t) == Result(FinalError(rs), DeliverAll(cfg, ps, rs), t)
    decreases |rs|
  {
    if rs == [] {
      RunNothing(cfg, ps, t);
    } else if |rs| == 1 && EndsAnswer(cfg.mode, rs[0]) {
      RunLast(cfg, ps, rs, t);
    } else {
      ConformsFirst(cfg, ps.keyIdx, rs);
      DeliverContinuing(cfg, ps, rs[0]);
      RunAll(cfg, Deliver(cfg, ps, rs[0]), rs[1..], t);
      RunOnward(cfg, ps, rs, t, Result(FinalError(rs[1..]), DeliverAll(cfg, Deliver(cfg, ps, rs[0]), rs[1..]), t));
    }
  }

  lemma RunOnward(cfg: Config, ps: PState, rs: seq<Reply>, t: Bytes, whole: Result)
    requires ps.fsm == Start && ConformsFrom(cfg, ps.keyIdx, rs) && rs != [] && WellFormedReply(rs[0])
    requires Continues(cfg.mode, rs[0]) && (cfg.mode == Counting ==> ps.keyIdx < |cfg.keys|)
    requires Deliver(cfg, ps, rs[0]).fsm == Start && Run(cfg, Deliver(cfg, ps, rs[0]), PrintAll(rs[1..]) + t) == whole
    requires whole == Result(FinalError(rs[1..]), DeliverAll(cfg, Deliver(cfg, ps, rs[0]), rs[1..]), t)
    ensures Run(cfg, ps, PrintAll(rs) + t) == whole == Result(FinalError(rs), DeliverAll(cfg, ps, rs), t)
  {
    ContinuingFirst(cfg, ps, rs);
    ContinuingReply(cfg, ps, rs[0], PrintAll(rs[1..]) + t);
    Associate(Print(rs[0]), PrintAll(rs[1..]), t);
  }

  lemma RunNothing(cfg: Config, ps: PState, t: Bytes)
    requires ps.fsm == Start && ConformsFrom(cfg, ps.keyIdx, [])
    ensures Run(cfg, ps, PrintAll([]) + t) == Result(Ok, ps, t)
  {
    assert PrintAll([]) + t == t;
  }

  lemma RunLast(cfg: Config, ps: PState, rs: seq<Reply>, t: Bytes)
    requires ps.fsm == Start && ConformsFrom(cfg, ps.keyIdx, rs) && |rs| == 1 && EndsAnswer(cfg.mode, rs[0])
    ensures Run(cfg, ps, PrintAll(rs) + t) == Result(FinalError(rs), DeliverAll(cfg, ps, rs), t)
  {
    PrintOne(rs);
    FinalReply(cfg, ps, rs[0], t);
    DeliverOne(cfg, ps, rs);
  }

  lemma PrintOne(rs: seq<Reply>)
    requires |rs| == 1
    ensures PrintAll(rs) == Print(rs[0])
  {
    assert PrintAll(rs) == Print(rs[0]) + PrintAll([]) == Print(rs[0]) + [];
  }

  lemma DeliverOne(cfg: Config, ps: PState, rs: seq<Reply>)
    requires |rs| == 1
    ensures DeliverAll(cfg, ps, rs) == Deliver(cfg, ps, rs[0])
  {
    assert DeliverAll(cfg, Deliver(cfg, ps, rs[0]), rs[1..]) == Deliver(cfg, ps, rs[0]);
  }

  /** A call may start where an earlier answer has ended: the results are added to those
      there are. */
  lemma RoundTripAfter(cfg: Config, ps: PState, rs: seq<Reply>, t: Bytes)
    requires (ps.fsm == Start || ps.fsm == End || ps.fsm == Error) && ConformsFrom(cfg, ps.keyIdx, rs)
    ensures Process(cfg, ps, PrintAll(rs) + t) == Result(FinalError(rs), DeliverAll(cfg, ps.(fsm := Start), rs), t)
  {
    RunAll(cfg, ps.(fsm := Start), rs, t);
  }

  /** The round trip: a complete answer, followed by anything, is parsed to exactly the
      results it was printed from, with the error code of its last line, leaving what
      follows unread. */
  lemma RoundTrip(cfg: Config, rs: seq<Reply>, t: Bytes)
    requires Conforming(cfg, rs)
    ensures Process(cfg, INITIAL, PrintAll(rs) + t) == Result(FinalError(rs), DeliverAll(cfg, INITIAL, rs), t)
  {
    RoundTripAfter(cfg, INITIAL, rs, t);
  }

  // ---- the results, read off the answer ----

  /** The values an answer has, each with all its data. */
  function Sent(rs: seq<Reply>): seq<Retrieval> {
    if rs == [] then [] else ValueSent(rs[0]) + Sent(rs[1..])
  }

  function ValueSent(r: Reply): seq<Retrieval> {
    match r
    case Value(key, flags, data, Some(cas)) => [Retrieval(key, |key|, flags, |data|, 0, cas, data)]
    case Value(key, flags, data, None) => [Retrieval(key, |key|, flags, |data|, 0, 0, data)]
    case _ => []
  }

  lemma DeliveredValue(cfg: Config, ps: PState, r: Reply)
    ensures Deliver(cfg, ps, r).retrievals == ps.retrievals + ValueSent(r)
  {
    if r.Value? {
      assert ValueSent(r) == [Retrieval(r.key, |r.key|, r.flags, |r.data|, 0, if r.cas.Some? then r.cas.value else 0, r.data)];
    } else {
      assert ps.retrievals + [] == ps.retrievals;
    }
  }

  lemma Regrouped<T>(a: seq<T>, b: seq<T>, c: seq<T>, ab: seq<T>)
    requires ab == a + b
    ensures ab + c == a + (b + c) && a + [] == a
  {
  }

  lemma {:induction false} DeliveredValues(cfg: Config, ps: PState, rs: seq<Reply>)
    ensures DeliverAll(cfg, ps, rs).retrievals == ps.retrievals + Sent(rs)
    decreases |rs|
  {
    if rs == [] {
      Regrouped(ps.retrievals, [], [], ps.retrievals);
    } else {
      var ps' := Deliver(cfg, ps, rs[0]);
      DeliveredValue(cfg, ps, rs[0]);
      DeliveredValues(cfg, ps', rs[1..]);
      Regrouped(ps.retrievals, ValueSent(rs[0]), Sent(rs[1..]), ps'.retrievals);
    }
  }

  lemma {:induction false} SentWhole(rs: seq<Reply>)
    ensures forall r <- Sent(rs) :: r.bytesRemain == 0 && |r.data| == r.bytes
  {
    if rs != [] {
      SentWhole(rs[1..]);
    }
  }

  /** An answer of messages of these kinds. */
  function MessageReplies(kinds: seq<MessageKind>): (rs: seq<Reply>)
    ensures |rs| == |kinds|
  {
    seq(|kinds|, i requires 0 <= i < |kinds| => Msg(kinds[i]))
  }

  /** A message of each kind, with the keys in order. */
  function MessagesFor(kinds: seq<MessageKind>, keys: seq<Bytes>): (ms: seq<Message>)
    requires |kinds| == |keys|
    ensures |ms| == |kinds|
  {
    seq(|kinds|, i requires 0 <= i < |kinds| => Message(kinds[i], Some(keys[i])))
  }

  lemma {:induction false} DeliveredMessages(cfg: Config, ps: PState, kinds: seq<MessageKind>)
    requires ps.keyIdx + |kinds| <= |cfg.keys|
    ensures DeliverAll(cfg, ps, MessageReplies(kinds)).messages ==
            ps.messages + MessagesFor(kinds, cfg.keys[ps.keyIdx..ps.keyIdx + |kinds|])
    decreases |kinds|
  {
    var keys := cfg.keys[ps.keyIdx..ps.keyIdx + |kinds|];
    if kinds == [] {
      assert MessagesFor(kinds, keys) == [] && ps.messages + [] == ps.messages;
    } else {
      var rs, m := MessageReplies(kinds), Message(kinds[0], Some(keys[0]));
      var ps' := Deliver(cfg, ps, rs[0]);
      assert rs[1..] == MessageReplies(kinds[1..]);
      assert ps'.messages == ps.messages + [m] && ps'.keyIdx == ps.keyIdx + 1;
      DeliveredMessages(cfg, ps', kinds[1..]);
      assert keys[1..] == cfg.keys[ps'.keyIdx..ps'.keyIdx + |kinds| - 1];
      assert MessagesFor(kinds, keys) == [m] + MessagesFor(kinds[1..], keys[1..]);
    }
  }
}
