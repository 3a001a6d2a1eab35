/** The resumable reply parser over the block list, proved to be the flat parser of
    ReplyMachine.dfy whatever the block boundaries. */
module Parsers {
  import opened Octets
  import opened BlockQueue
  import opened BufferReaders
  import opened ReplyMachine
  import opened ParserTokens

  class PacketParser {
    const reader: BufferReader

    var requestKeys: seq<Bytes>
    var mode: Option<ParserMode>
    var state: Fsm
    var requestKeyIdx: nat
    var retrievalResults: seq<RetrievalResult>
    var messageResults: seq<Message>
    var lineResults: seq<LineResult>
    var unsignedResults: seq<Numeric>

    ghost function View(): Tokens
      reads this
    {
      Tokens(state, requestKeyIdx, retrievalResults, messageResults, lineResults, unsignedResults)
    }

    /** The reader is in order and every live slice is held by exactly one result, with
        multiplicity. */
    ghost predicate Valid()
      reads this, reader, reader.Repr
    {
      && reader.Valid() && this !in reader.Repr
      && Holds(reader.live, View())
    }

    /** The results with their tokens replaced by bytes. */
    ghost function State(): PState
      reads this, reader
    {
      Abs(reader.store, View())
    }

    ghost function Unread(): Bytes
      reads reader
    {
      reader.Pending()
    }

    ghost function Cfg(): Config
      requires mode.Some?
      reads this
    {
      Config(mode.value, requestKeys)
    }

    constructor (reader: BufferReader)
      requires reader.Valid() && reader.live == multiset{}
      ensures Valid() && this.reader == reader && State() == INITIAL && requestKeys == [] && mode.None?
    {
      this.reader := reader;
      requestKeys, mode, state, requestKeyIdx := [], None, Start, 0;
      retrievalResults, messageResults, lineResults, unsignedResults := [], [], [], [];
    }

    // ---- one transition each ----

    /** Reads up to `c` and skips it. */
    method ReadThrough(c: octet) returns (err: Err, td: TokenData, n: nat)
      requires reader.Valid()
      modifies reader, reader.Repr
      ensures reader.Valid() && reader.Repr == old(reader.Repr) && reader.store == old(reader.store)
      ensures err == if c in old(Unread()) then Ok else Incomplete
      ensures err != Ok ==> reader.live == old(reader.live) && Unread() == old(Unread())
      ensures err == Ok ==>
                && n == IndexOf(c, old(Unread())) && Unread() == old(Unread())[n + 1..]
                && TokenWithin(reader.store, td) && Denote(reader.store, td) == old(Unread())[..n]
                && reader.live == old(reader.live) + multiset(td)
    {
      err, td, n := reader.ReadUntil(c);
      if err == Ok {
        err := reader.SkipBytes(1);
      } else {
        assert reader.live == old(reader.live);
      }
    }

    /** Writes through `mt_kvPtr`, the last retrieval result. */
    method SetLastRetrieval(r: RetrievalResult, next: Fsm)
      requires retrievalResults != []
      modifies this`state, this`retrievalResults
      ensures View() == WithLast(old(View()), r, next)
    {
      retrievalResults := retrievalResults[|retrievalResults| - 1 := r];
      state := next;
    }

    /** `READ_UNSIGNED` followed by `SKIP_BYTES(1)`, which cannot fail after it. */
    method ReadNumber() returns (err: Err, value: nat, ghost length: nat)
      requires reader.Valid()
      modifies reader, reader.Repr
      ensures reader.Valid() && reader.Repr == old(reader.Repr) && reader.store == old(reader.store)
      ensures reader.live == old(reader.live)
      ensures match ReplyMachine.ReadUnsigned(old(Unread()))
              case Short => err == Incomplete && Unread() == old(Unread())
              case NotANumber => err == ProgrammingErr && Unread() == old(Unread())
              case Parsed(v, n) => err == Ok && value == v && length == n && Unread() == old(Unread())[n + 1..]
    {
      err, value, length := reader.ReadUnsigned();
      if err == Ok {
        err := reader.SkipBytes(1);
      }
    }

    method ProcessGetStart() returns (err: Err)
      requires Valid() && WellFormed(State()) && state == GetStart
      modifies this`state, this`retrievalResults, reader, reader.Repr
      ensures Valid() && reader.Repr == old(reader.Repr) && reader.store == old(reader.store)
      ensures Takes(StepGetStart(old(State()), old(Unread())), old(Unread()), err, State(), Unread())
    {
      ghost var live, ts, s := reader.live, View(), Unread();
      var td, n;
      err, td, n := ReadThrough(' ');
      if err == Ok {
        GetStartSteps(reader.store, live, ts, s, td, n);
        SetLastRetrieval(Last(retrievalResults).(key := td, keyLen := n % 256), GetKey);
      }
    }

    method ProcessGetKey() returns (err: Err)
      requires Valid() && WellFormed(State()) && state == GetKey
      modifies this`state, this`retrievalResults, reader, reader.Repr
      ensures Valid() && reader.Repr == old(reader.Repr) && reader.store == old(reader.store)
      ensures Takes(StepGetKey(old(State()), old(Unread())), old(Unread()), err, State(), Unread())
    {
      ghost var live, ts, s := reader.live, View(), Unread();
      var flags; ghost var n;
      err, flags, n := ReadNumber();
      if err == Ok {
        FlagsSteps(reader.store, live, ts, s, flags, n);
        SetLastRetrieval(Last(retrievalResults).(flags := Wrap32(flags)), GetFlags);
      }
    }

    method ProcessGetFlags() returns (err: Err)
      requires Valid() && WellFormed(State()) && state == GetFlags
      modifies this`state, this`retrievalResults, reader, reader.Repr
      ensures Valid() && reader.Repr == old(reader.Repr) && reader.store == old(reader.store)
      ensures Takes(StepGetFlags(old(State()), old(Unread())), old(Unread()), err, State(), Unread())
    {
      ghost var live, ts, s := reader.live, View(), Unread();
      var v; ghost var n;
      err, v, n := ReadNumber();
      if err == Ok {
        LengthSteps(reader.store, live, ts, s, v, n);
        var bytes := Wrap32(v);
        SetLastRetrieval(Last(retrievalResults).(bytes := bytes, bytesRemain := Inc32(bytes)), GetBytes);
      }
    }

    /** If the cas number cannot be read it is left at zero. */
    method ProcessGetBytes() returns (err: Err)
      requires Valid() && WellFormed(State()) && state == GetBytes
      modifies this`state, this`retrievalResults, reader, reader.Repr
      ensures Valid() && reader.Repr == old(reader.Repr) && reader.store == old(reader.store)
      ensures Takes(StepGetBytes(old(State()), old(Unread())), old(Unread()), err, State(), Unread())
    {
      ghost var live, ts, s := reader.live, View(), Unread();
      var c;
      err, c := reader.Peek(0);
      if err == Ok {
        if c == '\n' {
          NoCasSteps(reader.store, live, ts, s);
          SetLastRetrieval(Last(retrievalResults).(cas := 0), GetCas);
        } else {
          var cas; ghost var n;
          err, cas, n := ReadNumber();
          if err == Ok {
            CasSteps(reader.store, live, ts, s, cas, n);
            SetLastRetrieval(Last(retrievalResults).(cas := cas), GetCas);
          }
        }
      }
    }

    method ProcessGetCas() returns (err: Err)
      requires Valid() && WellFormed(State()) && state == GetCas
      modifies this`state, this`retrievalResults, reader, reader.Repr
      ensures Valid() && reader.Repr == old(reader.Repr) && reader.store == old(reader.store)
      ensures Takes(StepGetCas(old(State()), old(Unread())), old(Unread()), err, State(), Unread())
    {
      ghost var live, ts, s := reader.live, View(), Unread();
      err := reader.SkipBytes(1);
      if err == Ok {
        LineEndSteps(reader.store, live, ts, s);
        var last := Last(retrievalResults);
        SetLastRetrieval(last.(bytesRemain := Dec32(last.bytesRemain)), GetValueRemaining);
      }
    }

    /** Asks for a next block that can take the rest of the value. */
    method SuggestBlockSize(bytes: nat)
      requires reader.Valid()
      modifies reader`nextPreferedDataBlockSize
      ensures reader.Valid()
      ensures var needed := Wrap32(bytes + 2);
              reader.nextPreferedDataBlockSize == if |Unread()| < needed then needed - |Unread()|
                                                  else old(reader.nextPreferedDataBlockSize)
    {
      var needed := Wrap32(bytes + 2);
      if reader.readLeft < needed {
        reader.SetNextPreferedDataBlockSize(needed - reader.readLeft);
      }
    }

    /** The first half of the value state: the data, all of it or nothing. */
    method ProcessValueData() returns (err: Err)
      requires Valid() && WellFormed(State()) && state == GetValueRemaining && Last(retrievalResults).bytesRemain > 0
      modifies this`state, this`retrievalResults, reader, reader.Repr
      ensures Valid() && reader.Repr == old(reader.Repr) && reader.store == old(reader.store)
      ensures Takes(StepGetValueRemaining(old(State()), old(Unread())), old(Unread()), err, State(), Unread())
      ensures state == GetValueRemaining && retrievalResults != []
      ensures err == Ok ==> Last(retrievalResults).bytesRemain == 0
    {
      ghost var live, ts, s := reader.live, View(), Unread();
      var bytes := Last(retrievalResults).bytes;
      SuggestBlockSize(bytes);
      var td;
      err, td := reader.ReadBytes(bytes);
      if err == Ok {
        DataSteps(reader.store, live, ts, s, td);
        SetLastRetrieval(Last(retrievalResults).(dataBlock := td, bytesRemain := 0), GetValueRemaining);
      } else {
        assert reader.live == live;
        DataMissing(reader.store, ts, s);
      }
    }

    /** The second half: the line end after the data. */
    method ProcessValueEnd() returns (err: Err)
      requires Valid() && WellFormed(State()) && state == GetValueRemaining && Last(retrievalResults).bytesRemain == 0
      modifies this`state, this`retrievalResults, reader, reader.Repr
      ensures Valid() && reader.Repr == old(reader.Repr) && reader.store == old(reader.store)
      ensures Takes(StepGetValueRemaining(old(State()), old(Unread())), old(Unread()), err, State(), Unread())
    {
      ghost var live, ts, s := reader.live, View(), Unread();
      err := reader.SkipBytes(2);
      if err == Ok {
        DataEndSteps(reader.store, live, ts, s);
        state := Start;
        assert View() == ts.(state := Start);
      } else {
        DataMissing(reader.store, ts, s);
      }
    }

    method SetLastNumber(n: Numeric, next: Fsm)
      requires unsignedResults != []
      modifies this`state, this`unsignedResults
      ensures View() == old(View()).(numbers := SetLast(old(View()).numbers, n), state := next)
    {
      unsignedResults := unsignedResults[|unsignedResults| - 1 := n];
      state := next;
    }

    method ProcessIncrDecrStart() returns (err: Err)
      requires Valid() && WellFormed(State()) && state == IncrDecrStart && mode.Some?
      modifies this`state, this`unsignedResults, reader, reader.Repr
      ensures Valid() && reader.Repr == old(reader.Repr) && reader.store == old(reader.store)
      ensures Takes(StepIncrDecrStart(Cfg(), old(State()), old(Unread())), old(Unread()), err, State(), Unread())
    {
      ghost var live, ts, s := reader.live, View(), Unread();
      var value; ghost var n;
      err, value, n := ReadNumber();
      if err == Ok {
        if requestKeyIdx >= |requestKeys| {
          return KeyOverrun;  // m_requestKeys[m_requestKeyIdx] would be out of bounds
        }
        NumberStartSteps(reader.store, live, Cfg(), ts, s, value, n);
        SetLastNumber(Numeric(Some(requestKeys[requestKeyIdx]), value), IncrDecrRemaining);
      }
    }

    method ProcessIncrDecrRemaining() returns (err: Err)
      requires Valid() && WellFormed(State()) && state == IncrDecrRemaining
      modifies this`state, this`requestKeyIdx, reader, reader.Repr
      ensures Valid() && reader.Repr == old(reader.Repr) && reader.store == old(reader.store)
      ensures Takes(StepIncrDecrRemaining(old(State()), old(Unread())), old(Unread()), err, State(), Unread())
    {
      ghost var live, ts, s := reader.live, View(), Unread();
      var n;
      err, n := reader.SkipUntil('\n');
      if err == Ok {
        err := reader.SkipBytes(1);
        NumberEndSteps(reader.store, live, ts, s);
        requestKeyIdx := requestKeyIdx + 1;
        state := Start;
        assert View() == ts.(keyIdx := ts.keyIdx + 1, state := Start);
      }
    }

    method SetLastLine(l: LineResult, next: Fsm)
      requires lineResults != []
      modifies this`state, this`lineResults
      ensures View() == old(View()).(lines := SetLast(old(View()).lines, l), state := next)
    {
      lineResults := lineResults[|lineResults| - 1 := l];
      state := next;
    }

    /** `processLineResult`, and the state after it. */
    method ProcessLine(after: Fsm) returns (err: Err)
      requires Valid() && WellFormed(State()) && (state == VerStart || state == StatStart) && (after == Start || after == End)
      modifies this`state, this`lineResults, reader, reader.Repr
      ensures Valid() && reader.Repr == old(reader.Repr) && reader.store == old(reader.store)
      ensures Takes(StepLine(old(State()), old(Unread()), after), old(Unread()), err, State(), Unread())
    {
      ghost var live, ts, s := reader.live, View(), Unread();
      var td, n;
      err, td, n := ReadThrough('\n');
      if err == Ok {
        LineSteps(reader.store, live, ts, s, td, n, after);
        SetLastLine(LineResult(td, n), after);
      }
    }

    // ---- the start state ----

    /** Skips an expected word and moves on. */
    method TakeWord(n: nat, next: Fsm) returns (err: Err)
      requires Valid() && state == Start && 0 < n && (next == Start || next == End)
      modifies this`state, reader, reader.Repr
      ensures Valid() && reader.Repr == old(reader.Repr) && reader.store == old(reader.store)
      ensures Takes(TakeHeader(old(State()), old(Unread()), n, old(State()).(fsm := next)), old(Unread()), err, State(), Unread())
    {
      ghost var live, ts, s := reader.live, View(), Unread();
      err := reader.SkipBytes(n);
      if err == Ok {
        WordSteps(reader.store, live, ts, s, n, next);
        state := next;
        assert View() == ts.(state := next);
      }
    }

    method TakeValueWord() returns (err: Err)
      requires Valid() && state == Start
      modifies this`state, this`retrievalResults, reader, reader.Repr
      ensures Valid() && reader.Repr == old(reader.Repr) && reader.store == old(reader.store)
      ensures var ps := old(State());
              Takes(TakeHeader(ps, old(Unread()), 6, ps.(retrievals := ps.retrievals + [FRESH_RETRIEVAL], fsm := GetStart)),
                    old(Unread()), err, State(), Unread())
    {
      ghost var live, ts, s := reader.live, View(), Unread();
      err := reader.SkipBytes(6);
      if err == Ok {
        ValueStarts(reader.store, live, ts, s);
        PushRetrieval(GetStart);
        assert Valid();
        assert Unread() == s[6..] && State() == Abs(reader.store, View());
      }
    }

    method PushRetrieval(next: Fsm)
      modifies this`state, this`retrievalResults
      ensures View() == old(View()).(retrievals := old(View()).retrievals + [NEW_RETRIEVAL], state := next)
    {
      retrievalResults := retrievalResults + [NEW_RETRIEVAL];
      state := next;
    }

    method TakeLineWord(n: nat, next: Fsm) returns (err: Err)
      requires Valid() && state == Start && 0 < n && (next == VerStart || next == StatStart)
      modifies this`state, this`lineResults, reader, reader.Repr
      ensures Valid() && reader.Repr == old(reader.Repr) && reader.store == old(reader.store)
      ensures var ps := old(State());
              Takes(TakeHeader(ps, old(Unread()), n, ps.(lines := ps.lines + [[]], fsm := next)),
                    old(Unread()), err, State(), Unread())
    {
      ghost var live, ts, s := reader.live, View(), Unread();
      err := reader.SkipBytes(n);
      if err == Ok {
        LineStarts(reader.store, live, ts, s, n, next);
        PushLine(next);
        assert Valid();
        assert Unread() == s[n..] && State() == Abs(reader.store, View());
      }
    }

    method PushLine(next: Fsm)
      modifies this`state, this`lineResults
      ensures View() == old(View()).(lines := old(View()).lines + [NEW_LINE], state := next)
    {
      lineResults := lineResults + [NEW_LINE];
      state := next;
    }

    /** Skips the word of a message and records the result (`processMessageResult`). */
    method TakeMessageWord(n: nat, kind: MessageKind) returns (err: Err)
      requires Valid() && state == Start && mode.Some? && 0 < n
      modifies this`state, this`messageResults, this`requestKeyIdx, reader, reader.Repr
      ensures Valid() && reader.Repr == old(reader.Repr) && reader.store == old(reader.store)
      ensures Takes(TakeMessage(Cfg(), old(State()), old(Unread()), n, kind), old(Unread()), err, State(), Unread())
    {
      ghost var live, ts, s := reader.live, View(), Unread();
      err := reader.SkipBytes(n);
      if err == Ok {
        if kind != MsgOk && requestKeyIdx >= |requestKeys| {
          return KeyOverrun;  // m_requestKeys[m_requestKeyIdx] would be out of bounds
        }
        MessageSteps(reader.store, live, Cfg(), ts, s, n, kind);
        AddMessage(kind);
      }
    }

    method AddMessage(kind: MessageKind)
      requires mode.Some? && (kind == MsgOk || requestKeyIdx < |requestKeys|)
      modifies this`state, this`messageResults, this`requestKeyIdx
      ensures View() == AfterMessage(Cfg(), old(View()), kind)
    {
      if kind == MsgOk {
        messageResults := messageResults + [Message(kind, None)];
        state := End;
      } else {
        messageResults := messageResults + [Message(kind, Some(requestKeys[requestKeyIdx]))];
        requestKeyIdx := requestKeyIdx + 1;
      }
    }

    /** An error line: read, logged, freed. */
    method TakeErrorReply(code: Err) returns (err: Err)
      requires Valid() && state == Start && code != Ok && code != Incomplete
      modifies this`state, reader, reader.Repr
      ensures Valid() && reader.Repr == old(reader.Repr) && reader.store == old(reader.store)
      ensures Takes(TakeErrorLine(old(State()), old(Unread()), code), old(Unread()), err, State(), Unread())
    {
      var text;
      ghost var ts := View();
      err, text := ConsumeLine();
      if err == Ok {
        HoldsSame(reader.live, ts, ts.(state := Error));
        state := Error;
        assert View() == ts.(state := Error);
        err := code;
      }
    }

    static lemma TakenAndFreed(live: multiset<Slice>, m: multiset<Slice>)
      ensures live + m - m == live
    {
    }

    method ConsumeLine() returns (err: Err, text: Option<Bytes>)
      requires reader.Valid()
      modifies reader, reader.Repr
      ensures reader.Valid() && reader.Repr == old(reader.Repr) && reader.store == old(reader.store)
      ensures reader.live == old(reader.live)
      ensures err == if '\n' in old(Unread()) then Ok else Incomplete
      ensures Unread() == if err == Ok then old(Unread())[IndexOf('\n', old(Unread())) + 1..] else old(Unread())
    {
      var td, n;
      err, td, n := ReadThrough('\n');
      text := None;
      if err == Ok {
        text := reader.ParseTokenData(td, n);
        reader.FreeTokenData(td);
        TakenAndFreed(old(reader.live), multiset(td));
      }
    }

    /** What processing packets never changes. */
    twostate predicate Kept()
      reads this, reader
    {
      requestKeys == old(requestKeys) && mode == old(mode) && reader.Repr == old(reader.Repr) && reader.store == old(reader.store)
    }

    method StartV() returns (err: Err)
      requires Valid() && state == Start && mode.Some? && Unread() != [] && Unread()[0] == 'V'
      modifies this, reader, reader.Repr
      ensures Valid() && Kept()
      ensures Takes(StepStart(old(Cfg()), old(State()), old(Unread())), old(Unread()), err, State(), Unread())
    {
      var c2;
      err, c2 := reader.Peek(1);
      if err != Ok {
        return;
      }
      if c2 == 'A' {
        err := TakeValueWord();
      } else if c2 == 'E' {
        err := TakeLineWord(8, VerStart);
      } else {
        err := Livelock;
      }
    }

    method StartE() returns (err: Err)
      requires Valid() && state == Start && mode.Some? && Unread() != [] && Unread()[0] == 'E'
      modifies this, reader, reader.Repr
      ensures Valid() && Kept()
      ensures Takes(StepStart(old(Cfg()), old(State()), old(Unread())), old(Unread()), err, State(), Unread())
    {
      var c2;
      err, c2 := reader.Peek(1);
      if err != Ok {
        return;
      }
      if c2 == 'R' {
        err := TakeErrorReply(ProgrammingErr);
      } else if c2 == 'N' {
        err := TakeWord(5, End);
      } else if c2 == 'X' {
        err := TakeMessageWord(8, MsgExists);
      } else {
        err := Livelock;
      }
    }

    /** "STORED" or "STAT". */
    method StartST(c3: octet) returns (err: Err)
      requires Valid() && state == Start && mode.Some?
      requires |Unread()| >= 3 && Unread()[0] == 'S' && Unread()[1] == 'T' && Unread()[2] == c3
      modifies this, reader, reader.Repr
      ensures Valid() && Kept()
      ensures Takes(StepStart(old(Cfg()), old(State()), old(Unread())), old(Unread()), err, State(), Unread())
    {
      if c3 == 'O' {
        err := TakeMessageWord(8, MsgStored);
      } else {
        err := TakeLineWord(5, StatStart);
      }
    }

    method StartS() returns (err: Err)
      requires Valid() && state == Start && mode.Some? && Unread() != [] && Unread()[0] == 'S'
      modifies this, reader, reader.Repr
      ensures Valid() && Kept()
      ensures Takes(StepStart(old(Cfg()), old(State()), old(Unread())), old(Unread()), err, State(), Unread())
    {
      var c2, c3;
      err, c3 := reader.Peek(2);
      if err != Ok {
        return;
      }
      err, c2 := reader.Peek(1);
      if c2 == 'T' {
        err := StartST(c3);
      } else {
        err := TakeErrorReply(ServerErr);
      }
    }

    method StartN() returns (err: Err)
      requires Valid() && state == Start && mode.Some? && Unread() != [] && Unread()[0] == 'N'
      modifies this, reader, reader.Repr
      ensures Valid() && Kept()
      ensures Takes(StepStart(old(Cfg()), old(State()), old(Unread())), old(Unread()), err, State(), Unread())
    {
      var c5;
      err, c5 := reader.Peek(4);
      if err != Ok {
        return;
      }
      if c5 == 'F' {
        err := TakeMessageWord(11, MsgNotFound);
      } else if c5 == 'S' {
        err := TakeMessageWord(12, MsgNotStored);
      } else {
        err := Livelock;
      }
    }

    method StartDigit() returns (err: Err)
      requires Valid() && state == Start
      modifies this`state, this`unsignedResults
      ensures Valid() && err == Ok
      ensures State() == old(State()).(numbers := old(State()).numbers + [FRESH_NUMERIC], fsm := IncrDecrStart)
    {
      ghost var ts := View();
      HoldsSame(reader.live, ts, ts.(numbers := ts.numbers + [FRESH_NUMERIC], state := IncrDecrStart));
      unsignedResults := unsignedResults + [FRESH_NUMERIC];
      state := IncrDecrStart;
      assert View() == ts.(numbers := ts.numbers + [FRESH_NUMERIC], state := IncrDecrStart);
      err := Ok;
    }

    /** `start_state`.  Where the original falls out of its switch without an error, the
        loop would come back here with nothing changed. */
    method StartState() returns (err: Err)
      requires Valid() && state == Start && mode.Some?
      modifies this, reader, reader.Repr
      ensures Valid() && Kept()
      ensures Takes(StepStart(old(Cfg()), old(State()), old(Unread())), old(Unread()), err, State(), Unread())
    {
      var c1;
      err, c1 := reader.Peek(0);
      if err != Ok {
        return;
      }
      match c1
      case 'V' => err := StartV();
      case 'E' => err := StartE();
      case 'O' => err := TakeMessageWord(4, MsgOk);
      case 'S' => err := StartS();
      case 'D' => err := TakeMessageWord(9, MsgDeleted);
      case 'N' => err := StartN();
      case 'T' => err := TakeMessageWord(9, MsgTouched);
      case 'C' => err := TakeErrorReply(ProgrammingErr);
      case _ =>
        if IsDigit(c1) {
          err := StartDigit();
        } else {
          err := ProgrammingErr;
        }
    }

    /** The value state: both halves, as far as the bytes go. */
    method ProcessValue() returns (err: Err)
      requires Valid() && WellFormed(State()) && state == GetValueRemaining && mode.Some? && !CanEnd(Cfg(), State())
      modifies this`state, this`retrievalResults, reader, reader.Repr
      ensures Valid() && reader.Repr == old(reader.Repr) && reader.store == old(reader.store)
      ensures Went(old(Cfg()), old(State()), old(Unread()), err, State(), Unread())
    {
      ghost var cfg, ps, s := Cfg(), State(), Unread();
      if Last(retrievalResults).bytesRemain > 0 {
        err := ProcessValueData();
        TakesWent(cfg, ps, s, err, State(), Unread());
        if err == Ok {
          ghost var ps1, s1 := State(), Unread();
          HoldsWellFormed(reader.store, reader.live, View());
          err := ProcessValueEnd();
          TakesWent(cfg, ps1, s1, err, State(), Unread());
          WentThen(cfg, ps, s, ps1, s1, err, State(), Unread());
        }
      } else {
        err := ProcessValueEnd();
        TakesWent(cfg, ps, s, err, State(), Unread());
      }
    }

    /** One iteration of the loop. */
    method ProcessOne() returns (err: Err)
      requires Valid() && mode.Some? && !CanEnd(Cfg(), State())
      modifies this, reader, reader.Repr
      ensures Valid() && Kept()
      ensures Went(old(Cfg()), old(State()), old(Unread()), err, State(), Unread())
    {
      ghost var cfg, ps, s := Cfg(), State(), Unread();
      HoldsWellFormed(reader.store, reader.live, View());
      if state == GetValueRemaining {
        err := ProcessValue();
      } else {
        err := ProcessState();
        TakesWent(cfg, ps, s, err, State(), Unread());
      }
    }

    /** The line that announces a value. */
    method ProcessValueLine() returns (err: Err)
      requires Valid() && mode.Some? && ReadingValue(state) && state != GetValueRemaining && WellFormed(State())
      modifies this`state, this`retrievalResults, reader, reader.Repr
      ensures Valid() && Kept()
      ensures Takes(Step(old(Cfg()), old(State()), old(Unread())), old(Unread()), err, State(), Unread())
    {
      match state
      case GetStart => err := ProcessGetStart();
      case GetKey => err := ProcessGetKey();
      case GetFlags => err := ProcessGetFlags();
      case GetBytes => err := ProcessGetBytes();
      case GetCas => err := ProcessGetCas();
    }

    method ProcessNumber() returns (err: Err)
      requires Valid() && mode.Some? && WellFormed(State()) && (state == IncrDecrStart || state == IncrDecrRemaining)
      modifies this, reader, reader.Repr
      ensures Valid() && Kept()
      ensures Takes(Step(old(Cfg()), old(State()), old(Unread())), old(Unread()), err, State(), Unread())
    {
      if state == IncrDecrStart {
        err := ProcessIncrDecrStart();
      } else {
        err := ProcessIncrDecrRemaining();
      }
    }

    method ProcessAnyLine() returns (err: Err)
      requires Valid() && mode.Some? && WellFormed(State()) && (state == VerStart || state == StatStart)
      modifies this, reader, reader.Repr
      ensures Valid() && Kept()
      ensures Takes(Step(old(Cfg()), old(State()), old(Unread())), old(Unread()), err, State(), Unread())
    {
      err := ProcessLine(if state == VerStart then End else Start);
    }

    /** The other cases of the switch.  The end states have none. */
    method ProcessState() returns (err: Err)
      requires Valid() && mode.Some? && state != GetValueRemaining && WellFormed(State())
      modifies this, reader, reader.Repr
      ensures Valid() && Kept()
      ensures Takes(Step(old(Cfg()), old(State()), old(Unread())), old(Unread()), err, State(), Unread())
    {
      if state == Start {
        err := StartState();
      } else if ReadingValue(state) {
        err := ProcessValueLine();
      } else if state == End || state == Error {
        err := Livelock;
      } else if state == VerStart || state == StatStart {
        err := ProcessAnyLine();
      } else {
        err := ProcessNumber();
      }
    }

    predicate CanEndParse()
      requires mode.Some?
      reads this
    {
      match mode.value
      case EndState => state == End || state == Error
      case Counting => requestKeyIdx == |requestKeys|
    }

    /** A parser that had come to an end starts afresh. */
    method ResumeState()
      requires Valid()
      modifies this`state
      ensures Valid() && Kept() && State() == Resume(old(State())) && Unread() == old(Unread())
    {
      ghost var ts := View();
      if state == End || state == Error {
        HoldsSame(reader.live, ts, ts.(state := Start));
        state := Start;
        assert View() == ts.(state := Start);
      }
    }

    /** `process_packets`: the same error code, the same results and the same unread
        bytes as the flat parser, whatever the blocks look like. */
    method ProcessPackets() returns (err: Err)
      requires Valid() && mode.Some?
      modifies this, reader, reader.Repr
      ensures Valid() && Kept()
      ensures WellFormed(old(State()))
      ensures Result(err, State(), Unread()) == Process(old(Cfg()), old(State()), old(Unread()))
    {
      HoldsWellFormed(reader.store, reader.live, View());
      ghost var cfg, whole := Cfg(), Process(Cfg(), State(), Unread());
      LeadsFrom(cfg, State(), Unread());
      ResumeState();
      err := Ok;
      while !CanEndParse()
        invariant Valid() && Kept() && err == Ok
        invariant Leads(cfg, State(), Unread(), whole)
        decreases |Unread()|, Rank(State())
      {
        ghost var ps, s := State(), Unread();
        err := ProcessOne();
        LeadsOn(cfg, ps, s, whole, err, State(), Unread());
        if err != Ok {
          return;
        }
      }
      LeadsHere(cfg, State(), Unread(), whole);
    }

    // ---- keys, mode and results ----

    method SetMode(md: ParserMode)
      requires Valid()
      modifies this`mode
      ensures Valid() && mode == Some(md) && State() == old(State())
    {
      mode := Some(md);
    }

    method AddRequestKey(key: Bytes)
      requires Valid()
      modifies this`requestKeys
      ensures Valid() && requestKeys == old(requestKeys) + [key] && State() == old(State())
    {
      requestKeys := requestKeys + [key];
    }

    /** The destructor of a retrieval result. */
    method FreeRetrieval(r: RetrievalResult)
      requires reader.Valid() && SlicesOf(r) <= reader.live
      modifies reader`refs, reader`live, reader.Repr
      ensures reader.Valid() && reader.live == old(reader.live) - SlicesOf(r) && Unread() == old(Unread())
    {
      reader.FreeTokenData(r.key);
      reader.FreeTokenData(r.dataBlock);
    }

    /** The copy constructor: the copy holds its slices as well. */
    method CopyRetrieval(r: RetrievalResult) returns (copy: RetrievalResult)
      requires reader.Valid() && TokenWithin(reader.store, r.key) && TokenWithin(reader.store, r.dataBlock)
      modifies reader`refs, reader`live, reader.Repr
      ensures reader.Valid() && reader.live == old(reader.live) + SlicesOf(r) && Unread() == old(Unread()) && copy == r
    {
      var key := reader.CopyTokenData(r.key);
      var dataBlock := reader.CopyTokenData(r.dataBlock);
      copy := RetrievalResult(key, r.keyLen, dataBlock, r.cas, r.bytesRemain, r.bytes, r.flags);
    }

    /** Destroys results, the last one first. */
    method FreeRetrievals(rs: seq<RetrievalResult>, ghost kept: multiset<Slice>)
      requires reader.Valid() && reader.live == kept + HeldByRetrievals(rs)
      modifies reader`refs, reader`live, reader.Repr
      ensures reader.Valid() && reader.live == kept && Unread() == old(Unread())
    {
      var rest := rs;
      while rest != []
        invariant reader.Valid() && reader.live == kept + HeldByRetrievals(rest) && Unread() == old(Unread())
        decreases |rest|
      {
        FreeOne(rest, kept);
        rest := rest[..|rest| - 1];
      }
    }

    method FreeOne(rs: seq<RetrievalResult>, ghost kept: multiset<Slice>)
      requires reader.Valid() && rs != [] && reader.live == kept + HeldByRetrievals(rs)
      modifies reader`refs, reader`live, reader.Repr
      ensures reader.Valid() && reader.live == kept + HeldByRetrievals(rs[..|rs| - 1]) && Unread() == old(Unread())
    {
      FreeRetrieval(Last(rs));
    }

    /** Copies results: the copies hold the slices once more. */
    method CopyRetrievals(rs: seq<RetrievalResult>, ghost held: multiset<Slice>) returns (copies: seq<RetrievalResult>)
      requires reader.Valid() && reader.live == held && HeldByRetrievals(rs) <= held
      modifies reader`refs, reader`live, reader.Repr
      ensures reader.Valid() && reader.live == held + HeldByRetrievals(rs) && Unread() == old(Unread())
      ensures copies == rs
    {
      copies := [];
      NoneHeld(held);
      for i := 0 to |rs|
        invariant copies == rs[..i]
        invariant reader.Valid() && reader.live == held + HeldByRetrievals(copies) && Unread() == old(Unread())
      {
        copies := CopyOne(rs, copies, held);
      }
      assert rs[..|rs|] == rs;
    }

    static lemma NoneHeld(held: multiset<Slice>)
      ensures held == held + HeldByRetrievals([])
    {
    }

    method CopyOne(rs: seq<RetrievalResult>, copies: seq<RetrievalResult>, ghost held: multiset<Slice>)
      returns (more: seq<RetrievalResult>)
      requires reader.Valid() && reader.live == held + HeldByRetrievals(copies) && HeldByRetrievals(rs) <= held
      requires |copies| < |rs| && copies == rs[..|copies|]
      modifies reader`refs, reader`live, reader.Repr
      ensures reader.Valid() && reader.live == held + HeldByRetrievals(more) && Unread() == old(Unread())
      ensures more == rs[..|copies| + 1]
    {
      var r := rs[|copies|];
      CopyWithin(rs, |copies|, held, HeldByRetrievals(copies));
      OneMoreHeld(reader.store, copies, r, held);
      var copy := CopyRetrieval(r);
      more := copies + [copy];
    }

    static lemma OneMoreHeld(store: seq<Bytes>, rs: seq<RetrievalResult>, r: RetrievalResult, held: multiset<Slice>)
      ensures held + HeldByRetrievals(rs) + SlicesOf(r) == held + HeldByRetrievals(rs + [r])
    {
      AddRetrieval(store, rs, r);
    }

    lemma CopyWithin(rs: seq<RetrievalResult>, i: nat, held: multiset<Slice>, copied: multiset<Slice>)
      requires reader.Valid() && HeldByRetrievals(rs) <= held && reader.live == held + copied && i < |rs|
      ensures TokenWithin(reader.store, rs[i].key) && TokenWithin(reader.store, rs[i].dataBlock)
    {
      Open(reader.View());
      assert held <= reader.live;
      assert forall s :: s in HeldByRetrievals(rs) ==> s in reader.live;
      RetrievalWithin(reader.store, rs, i);
    }

    /** The vector of results moves to a larger buffer: everything is copied, then the old
        elements are destroyed.  Nothing is gained or lost. */
    method ReallocateRetrievals()
      requires Valid()
      modifies this`retrievalResults, reader`refs, reader`live, reader.Repr
      ensures Valid() && View() == old(View()) && reader.live == old(reader.live) && Unread() == old(Unread())
      ensures State() == old(State())
    {
      OpenHolds(reader.live, View());
      ghost var live := reader.live;
      var copies := CopyRetrievals(retrievalResults, reader.live);
      FreeRetrievals(retrievalResults, live);
      retrievalResults := copies;
      assert View() == old(View());
    }

    /** `RetrievalResult::inner`: key and value in one piece each, if they have arrived whole
        (`collectRetrievalResult` asks for no others).  Nothing is handed out for no bytes. */
    method Inner(i: nat) returns (key: Option<Bytes>, data: Option<Bytes>)
      requires Valid() && i < |retrievalResults|
      ensures var r := State().retrievals[i];
              |r.key| == r.keyLen ==> key == if r.key == [] then None else Some(r.key)
      ensures var r := State().retrievals[i];
              |r.data| == r.bytes ==> data == if r.data == [] then None else Some(r.data)
      ensures var r := State().retrievals[i];
              r.data == [] && retrievalResults[i].dataBlock == [] && r.bytes > 0 ==> data.Some? && |data.value| == r.bytes
    {
      ResultWithin(reader.View(), View(), i);
      var r := retrievalResults[i];
      key := reader.ParseTokenData(r.key, r.keyLen);
      data := reader.ParseTokenData(r.dataBlock, r.bytes);
    }

    method FreeLines(ls: seq<LineResult>, ghost kept: multiset<Slice>)
      requires reader.Valid() && reader.live == kept + HeldByLines(ls)
      modifies reader`refs, reader`live, reader.Repr
      ensures reader.Valid() && reader.live == kept && Unread() == old(Unread())
    {
      var rest := ls;
      while rest != []
        invariant reader.Valid() && reader.live == kept + HeldByLines(rest) && Unread() == old(Unread())
        decreases |rest|
      {
        reader.FreeTokenData(Last(rest).line);
        rest := rest[..|rest| - 1];
      }
    }

    /** The retrieval and line results are destroyed, in any order. */
    method FreeTokens()
      requires Valid()
      modifies reader`refs, reader`live, reader.Repr
      ensures reader.Valid() && reader.live == multiset{} && Unread() == old(Unread())
    {
      OpenHolds(reader.live, View());
      assert reader.live == HeldByLines(lineResults) + HeldByRetrievals(retrievalResults);
      FreeRetrievals(retrievalResults, HeldByLines(lineResults));
      assert HeldByLines(lineResults) == multiset{} + HeldByLines(lineResults);
      FreeLines(lineResults, multiset{});
    }

    /** `clear()` on the result vectors. */
    method ClearResults()
      requires Valid()
      modifies this`retrievalResults, this`messageResults, this`lineResults, this`unsignedResults,
               reader`refs, reader`live, reader.Repr
      ensures reader.Valid() && reader.live == multiset{} && Unread() == old(Unread())
      ensures retrievalResults == [] && messageResults == [] && lineResults == [] && unsignedResults == []
    {
      FreeTokens();
      retrievalResults, messageResults, lineResults, unsignedResults := [], [], [], [];
    }

    /** `reset`: forgets the request, too. */
    method Reset()
      requires Valid()
      modifies this, reader`refs, reader`live, reader.Repr
      ensures Valid() && View() == NO_RESULTS && State() == INITIAL && requestKeys == [] && mode.None?
      ensures reader.live == multiset{} && Unread() == old(Unread())
    {
      requestKeys := [];
      ClearResults();
      state, mode, requestKeyIdx := Start, None, 0;
      NoResults(reader.store);
    }

    /** `rewind`: as if nothing had been received; the request is kept. */
    method Rewind()
      requires Valid()
      modifies this, reader`refs, reader`live, reader.Repr
      ensures Valid() && View() == NO_RESULTS && State() == INITIAL
      ensures requestKeys == old(requestKeys) && mode == old(mode)
      ensures reader.live == multiset{} && Unread() == old(Unread())
    {
      ClearResults();
      state, requestKeyIdx := Start, 0;
      NoResults(reader.store);
    }
  }
}
