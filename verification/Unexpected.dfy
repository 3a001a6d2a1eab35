/** What the parser makes of numbers and keys that do not fit their fields, and of replies
    that are not among those it waits for: exactly which bytes stop it, with which error,
    and which ones it cannot get past. */
module UnexpectedReplies {
  import opened Octets
  import opened ReplyMachine
  import opened Chunking
  import opened Replies
  import opened Receiving

  // ---- numbers ----

  /** Exactly when a number is found, is not yet known to be whole, or is none. */
  lemma ReadUnsignedCases(s: Bytes)
    ensures ReadUnsigned(s) == Short <==> |s| < 2 || AllDigits(s)
    ensures ReadUnsigned(s) == NotANumber <==> |s| >= 2 && !('0' <= s[0] <= '9')
    ensures ReadUnsigned(s).Parsed? ==>
              var n := ReadUnsigned(s).length;
              n < |s| && AllDigits(s[..n]) && !IsDigit(s[n]) && ReadUnsigned(s).value == DigitsValue(s[..n]) % 0x1_0000_0000_0000_0000
  {
    DigitCountSpec(s);
    if AllDigits(s) {
      AllDigitsCounted(s);
    }
  }

  /** What becomes of a key of any length, and of numbers of up to 64 bits, in the fields
      that have 8 and 32 bits; what is left of a value is counted from its length plus one,
      with 32 bits again. */
  lemma FieldsWrap(cfg: Config, ps: PState, key: Bytes, v: nat, c: octet, t: Bytes)
    requires WellFormed(ps) && ' ' !in key && v < TWO_64 && !IsDigit(c)
    ensures ps.fsm.GetStart? ==>
              var r := Step(cfg, ps, key + [' '] + t);
              r.used == |key| + 1 && Last(r.ps.retrievals).key == key && Last(r.ps.retrievals).keyLen == |key| % 256
    ensures ps.fsm.GetKey? ==>
              var r := Step(cfg, ps, Decimal(v) + [c] + t);
              r.used == |Decimal(v)| + 1 && Last(r.ps.retrievals).flags == v % 0x1_0000_0000
    ensures ps.fsm.GetFlags? ==>
              var r := Step(cfg, ps, Decimal(v) + [c] + t);
              && r.used == |Decimal(v)| + 1 && Last(r.ps.retrievals).bytes == v % 0x1_0000_0000
              && Last(r.ps.retrievals).bytesRemain == (v + 1) % 0x1_0000_0000
  {
    if ps.fsm.GetStart? {
      FindDelimiter(' ', key, t);
    } else if ps.fsm.GetKey? || ps.fsm.GetFlags? {
      ReadDecimal(v, c, t);
      OneMoreModulo(v);
    }
  }

  lemma OneMoreModulo(v: nat)
    ensures (v % 0x1_0000_0000 + 1) % 0x1_0000_0000 == (v + 1) % 0x1_0000_0000
  {
  }

  // ---- the first bytes of a reply ----

  const FIRST_BYTES: Bytes := "VEOSDNTC0123456789"

  /** No reply begins like this. */
  predicate Unknown(s: Bytes) {
    s != [] && s[0] !in FIRST_BYTES
  }

  /** Bytes that begin like a reply and go on differently, in a place that the parser looks
      at: it makes nothing of them, and does not leave the loop either. */
  predicate Spins(s: Bytes) {
    || (|s| >= 2 && s[0] == 'V' && s[1] !in ['A', 'E'])
    || (|s| >= 2 && s[0] == 'E' && s[1] !in ['R', 'N', 'X'])
    || (|s| >= 5 && s[0] == 'N' && s[4] !in ['F', 'S'])
  }

  /** Exactly the bytes at which the loop changes nothing and so goes on forever. */
  lemma SpinsIff(cfg: Config, ps: PState, s: Bytes)
    requires ps.fsm == Start
    ensures Step(cfg, ps, s) == Stop(Livelock, ps, 0) <==> Spins(s)
  {
    if s != [] {
      match s[0]
      case _ =>
    }
  }

  /** Exactly the bytes that are refused as the beginning of a reply, none of them used up. */
  lemma UnknownIff(cfg: Config, ps: PState, s: Bytes)
    requires ps.fsm == Start
    ensures Step(cfg, ps, s) == Stop(ProgrammingErr, ps, 0) <==> Unknown(s)
  {
    if s != [] {
      match s[0]
      case _ =>
    }
  }

  /** Exactly the bytes that are refused where a number is expected; a line may end in the
      place of a cas number. */
  lemma NumberExpected(cfg: Config, ps: PState, s: Bytes)
    requires WellFormed(ps) && (ps.fsm.GetKey? || ps.fsm.GetFlags? || ps.fsm.GetBytes? || ps.fsm.IncrDecrStart?)
    ensures Step(cfg, ps, s) == Stop(ProgrammingErr, ps, 0) <==>
            |s| >= 2 && !('0' <= s[0] <= '9') && !(ps.fsm.GetBytes? && s[0] == '\n')
  {
    ReadUnsignedCases(s);
  }

  /** After any replies of a retrieval, the results so far are kept, and such bytes are left
      unread. */
  lemma WrongBytesAfter(cfg: Config, rs: seq<Reply>, t: Bytes)
    requires cfg.mode == EndState && forall r <- rs :: WellFormedReply(r) && Continues(EndState, r)
    ensures Unknown(t) ==>
              Process(cfg, INITIAL, PrintAll(rs) + t) == Result(ProgrammingErr, DeliverAll(cfg, INITIAL, rs), t)
    ensures Spins(t) ==> Process(cfg, INITIAL, PrintAll(rs) + t) == Result(Livelock, DeliverAll(cfg, INITIAL, rs), t)
  {
    var ps := DeliverAll(cfg, INITIAL, rs);
    DrivesReplies(cfg, INITIAL, rs);
    DrivesOn(cfg, INITIAL, PrintAll(rs), ps, t);
    UnknownIff(cfg, ps, t);
    SpinsIff(cfg, ps, t);
  }

  // ---- replies in the wrong mode ----

  /** A reply that ends an answer, while replies are being counted: its result is added, and
      the loop neither ends nor goes on. */
  lemma EndWhileCounting(cfg: Config, ps: PState, r: Reply, t: Bytes)
    requires cfg.mode == Counting && ps.fsm == Start && ps.keyIdx != |cfg.keys| && WellFormedReply(r)
    requires r.EndReply? || r.OkReply? || r.VersionReply?
    ensures Run(cfg, ps, Print(r) + t) == Result(Livelock, Deliver(cfg, ps, r), t)
  {
    ReplyDelivered(cfg, ps, r);
    DrivesOn(cfg, ps, Print(r), Deliver(cfg, ps, r), t);
    assert t[0..] == t;
  }

  /** A message for which no key is left: the parser would look for its key past the end. */
  lemma MessageWithoutKey(cfg: Config, ps: PState, kind: MessageKind, t: Bytes)
    requires ps.fsm == Start && !CanEnd(cfg, ps) && ps.keyIdx >= |cfg.keys| && kind != MsgOk
    ensures Run(cfg, ps, MessageText(kind) + t) == Result(KeyOverrun, ps, t)
  {
    var s := MessageText(kind) + t;
    var n := |MessageText(kind)|;
    assert s[..n] == MessageText(kind) && s[n..] == t;
    assert Step(cfg, ps, s) == Stop(KeyOverrun, ps, n);
  }
}
