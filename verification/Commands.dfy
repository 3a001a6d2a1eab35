/** The commands of the text protocol as the pool writes them, and as a server reads them. */
module Commands {
  import opened Octets
  import opened Itoa
  import opened ReplyMachine
  import opened Chunking
  import opened Replies

  datatype StorageOp = SetOp | AddOp | ReplaceOp | AppendOp | PrependOp | CasOp

  datatype Command =
    | Store(op: StorageOp, key: Bytes, flags: nat, exptime: int, value: Bytes, cas: Option<nat>, noreply: bool)
    | Delete(key: Bytes, noreply: bool)
    | Touch(key: Bytes, exptime: int, noreply: bool)

  const TWO_63 := 0x8000_0000_0000_0000

  /** The ranges of the C types, and a cas number exactly for "cas". */
  predicate Typed(c: Command) {
    match c
    case Store(op, key, flags, exptime, value, cas, _) =>
      && flags < TWO_32 && -TWO_63 <= exptime < TWO_63 && |value| < TWO_64
      && (op == CasOp <==> cas.Some?) && (cas.Some? ==> cas.value < TWO_64)
    case Delete(_, _) => true
    case Touch(_, exptime, _) => -TWO_63 <= exptime < TWO_63
  }

  /** Conversion from `uint64_t` to `int64_t`. */
  function AsSigned(u: nat): (v: int)
    requires u < TWO_64
    ensures -TWO_63 <= v < TWO_63
    ensures v >= 0 <==> u < TWO_63
    ensures u < TWO_63 ==> v == u
  {
    if u < TWO_63 then u else u - TWO_64
  }

  function Verb(op: StorageOp): Bytes {
    match op
    case SetOp => "set"
    case AddOp => "add"
    case ReplaceOp => "replace"
    case AppendOp => "append"
    case PrependOp => "prepend"
    case CasOp => "cas"
  }

  datatype RetrievalOp = GetOp | GetsOp

  function RetrievalVerb(op: RetrievalOp): Bytes {
    match op
    case GetOp => "get"
    case GetsOp => "gets"
  }

  const DELETE: Bytes := "delete"
  const TOUCH: Bytes := "touch"
  const NOREPLY: Bytes := "noreply"

  // ---- writing ----

  function Optional(noreply: bool): seq<Bytes> {
    if noreply then [NOREPLY] else []
  }

  /** The words of the command line. */
  function Words(c: Command): (ws: seq<Bytes>)
    requires Typed(c)
    ensures |ws| >= 2 && ws[1] == c.key
  {
    match c
    case Store(op, key, flags, exptime, value, cas, noreply) =>
      [Verb(op), key, SignedDecimal(flags), SignedDecimal(exptime), SignedDecimal(AsSigned(|value|))]
      + (match cas case Some(n) => [SignedDecimal(AsSigned(n))] case None => []) + Optional(noreply)
    case Delete(key, noreply) => [DELETE, key] + Optional(noreply)
    case Touch(key, exptime, noreply) => [TOUCH, key, SignedDecimal(exptime)] + Optional(noreply)
  }

  /** Words with single blanks between them. */
  function Join(ws: seq<Bytes>): Bytes
    requires ws != []
  {
    if |ws| == 1 then ws[0] else Join(ws[..|ws| - 1]) + SP + Last(ws)
  }

  function Body(c: Command): Bytes {
    if c.Store? then c.value + CRLF else []
  }

  function Encode(c: Command): Bytes
    requires Typed(c)
  {
    Join(Words(c)) + CRLF + Body(c)
  }

  predicate AllTyped(cs: seq<Command>) {
    forall i :: 0 <= i < |cs| ==> Typed(cs[i])
  }

  function Texts(cs: seq<Command>): (ts: seq<Bytes>)
    requires AllTyped(cs)
    ensures |ts| == |cs|
  {
    seq(|cs|, i requires 0 <= i < |cs| => Encode(cs[i]))
  }

  function EncodeAll(cs: seq<Command>): Bytes
    requires AllTyped(cs)
  {
    Flatten(Texts(cs))
  }

  // ---- reading, as the protocol has it ----

  /** The words between single blanks. */
  function Split(s: Bytes): (ws: seq<Bytes>)
    ensures ws != []
    decreases |s|
  {
    var n := IndexOf(' ', s);
    if n == |s| then [s] else [s[..n]] + Split(s[n + 1..])
  }

  function ReadNat(w: Bytes): Option<nat> {
    if w != [] && AllDigits(w) then Some(DigitsValue(w)) else None
  }

  function ReadInt(w: Bytes): Option<int> {
    if w != [] && w[0] == '-' then
      match ReadNat(w[1..]) case Some(v) => Some(0 - (v as int)) case None => None
    else
      match ReadNat(w) case Some(v) => Some(v as int) case None => None
  }

  function ReadVerb(w: Bytes): Option<StorageOp> {
    if w == "set" then Some(SetOp)
    else if w == "add" then Some(AddOp)
    else if w == "replace" then Some(ReplaceOp)
    else if w == "append" then Some(AppendOp)
    else if w == "prepend" then Some(PrependOp)
    else if w == "cas" then Some(CasOp)
    else None
  }

  /** A word more than `n` must be "noreply". */
  function ReadNoreply(ws: seq<Bytes>, n: nat): Option<bool> {
    if |ws| == n then Some(false)
    else if |ws| == n + 1 && ws[n] == "noreply" then Some(true)
    else None
  }

  datatype Header =
    | StoreHeader(op: StorageOp, key: Bytes, flags: nat, exptime: int, bytes: nat, cas: Option<nat>, noreply: bool)
    | WholeHeader(command: Command)

  function ReadStore(op: StorageOp, ws: seq<Bytes>): Option<Header>
    requires |ws| >= 2
  {
    var fields := if op == CasOp then 6 else 5;
    if |ws| < fields then None
    else
      match (ReadNat(ws[2]), ReadInt(ws[3]), ReadNat(ws[4]), ReadNoreply(ws, fields))
      case (Some(flags), Some(exptime), Some(bytes), Some(noreply)) =>
        if op == CasOp then
          match ReadNat(ws[5])
          case Some(cas) => Some(StoreHeader(op, ws[1], flags, exptime, bytes, Some(cas), noreply))
          case None => None
        else Some(StoreHeader(op, ws[1], flags, exptime, bytes, None, noreply))
      case _ => None
  }

  /** A command line.  The key must not be empty. */
  function ReadHeader(ws: seq<Bytes>): Option<Header> {
    if |ws| < 2 || ws[1] == [] then None
    else if ws[0] == "delete" then
      match ReadNoreply(ws, 2) case Some(b) => Some(WholeHeader(Delete(ws[1], b))) case None => None
    else if ws[0] == "touch" then
      if |ws| < 3 then None
      else
        match (ReadInt(ws[2]), ReadNoreply(ws, 3))
        case (Some(exptime), Some(b)) => Some(WholeHeader(Touch(ws[1], exptime, b)))
        case _ => None
    else
      match ReadVerb(ws[0]) case Some(op) => ReadStore(op, ws) case None => None
  }

  datatype Decoded = Decoded(command: Command, used: nat)

  /** A retrieval line: "get" or "gets" and keys, none of them empty. */
  function ReadRetrieval(ws: seq<Bytes>): Option<(RetrievalOp, seq<Bytes>)> {
    if |ws| < 2 || [] in ws then None
    else if ws[0] == "get" then Some((GetOp, ws[1..]))
    else if ws[0] == "gets" then Some((GetsOp, ws[1..]))
    else None
  }

  /** What a command line of `n` bytes and the bytes `after` it stand for: storage commands
      are followed by as many bytes as they announce and another line end. */
  function WithBody(h: Option<Header>, n: nat, after: Bytes): (d: Option<Decoded>)
    ensures d.Some? ==> n <= d.value.used <= n + |after|
  {
    match h
    case None => None
    case Some(WholeHeader(c)) => Some(Decoded(c, n))
    case Some(StoreHeader(op, key, flags, exptime, bytes, cas, noreply)) =>
      if bytes + 2 <= |after| && after[bytes..bytes + 2] == "\r\n" then
        Some(Decoded(Store(op, key, flags, exptime, after[..bytes], cas, noreply), n + bytes + 2))
      else None
  }

  /** The first command of a stream. */
  function DecodeOne(s: Bytes): (d: Option<Decoded>)
    ensures d.Some? ==> 0 < d.value.used <= |s|
  {
    var n := IndexOf('\n', s);
    if n == |s| || n == 0 || s[n - 1] != '\r' then None
    else WithBody(ReadHeader(Split(s[..n - 1])), n + 1, s[n + 1..])
  }

  function DecodeAll(s: Bytes): Option<seq<Command>>
    decreases |s|
  {
    if s == [] then Some([])
    else
      match DecodeOne(s)
      case None => None
      case Some(d) =>
        match DecodeAll(s[d.used..]) case None => None case Some(cs) => Some([d.command] + cs)
  }

  // ---- words ----

  /** A word that no separator can be mistaken for a part of. */
  predicate Clean(w: Bytes) {
    forall i :: 0 <= i < |w| ==> w[i] != ' ' && w[i] != '\r' && w[i] != '\n'
  }

  lemma {:induction false} JoinCons(w: Bytes, ws: seq<Bytes>)
    requires ws != []
    ensures Join([w] + ws) == w + SP + Join(ws)
  {
    var all := [w] + ws;
    if |ws| == 1 {
      assert all[..1] == [w] && Last(all) == ws[0];
    } else {
      var init := ws[..|ws| - 1];
      assert all[..|all| - 1] == [w] + init;
      JoinCons(w, init);
      assert w + SP + Join(init) + SP + Last(ws) == w + SP + (Join(init) + SP + Last(ws));
    }
  }

  lemma CleanNoBlank(w: Bytes, rest: Bytes)
    requires Clean(w)
    ensures IndexOf(' ', w + SP + rest) == |w| && (w + SP + rest)[..|w|] == w && (w + SP + rest)[|w| + 1..] == rest
    ensures IndexOf(' ', w) == |w|
  {
    var s := w + SP + rest;
    assert s[..|w|] == w && s[|w|] == ' ';
    IndexOfIsFirst(' ', s, |w|);
  }

  /** Reading the words of a line gives back the words it was made of. */
  lemma {:induction false} SplitJoin(ws: seq<Bytes>)
    requires ws != [] && AllClean(ws)
    ensures Split(Join(ws)) == ws
  {
    if |ws| == 1 {
      CleanNoBlank(ws[0], []);
    } else {
      var rest := ws[1..];
      assert ws == [ws[0]] + rest;
      JoinCons(ws[0], rest);
      CleanNoBlank(ws[0], Join(rest));
      SplitJoin(rest);
    }
  }

  predicate NoLineEnd(s: Bytes) {
    forall i :: 0 <= i < |s| ==> s[i] != '\n'
  }

  lemma {:induction false} JoinNoLineEnd(ws: seq<Bytes>)
    requires ws != [] && AllClean(ws)
    ensures NoLineEnd(Join(ws))
  {
    if |ws| > 1 {
      JoinNoLineEnd(ws[..|ws| - 1]);
      assert Clean(Last(ws));
    }
  }

  // ---- numbers ----

  lemma NumbersRead(v: int)
    ensures Clean(SignedDecimal(v))
    ensures ReadInt(SignedDecimal(v)) == Some(v)
    ensures ReadNat(SignedDecimal(v)) == if v >= 0 then Some(v) else None
  {
    if v < 0 {
      var d := Decimal(-v);
      assert SignedDecimal(v)[1..] == d && SignedDecimal(v)[0] == '-';
    } else {
      assert IsDigit(Decimal(v)[0]);
    }
  }

  // ---- one command ----

  const MC_MAX_KEY_LENGTH := 250

  /** The bytes `isValidKey` accepts. */
  predicate ValidKey(key: Bytes) {
    && |key| <= MC_MAX_KEY_LENGTH
    && forall i :: 0 <= i < |key| ==> key[i] != ' ' && key[i] != '\r' && key[i] != '\n' && key[i] != '\0'
  }

  /** What the protocol can express: the key is not empty, and the numbers are printed
      without a sign. */
  predicate Fits(c: Command) {
    && c.key != []
    && (c.Store? ==> |c.value| < TWO_63 && (c.cas.Some? ==> c.cas.value < TWO_63))
  }

  predicate AllClean(ws: seq<Bytes>) {
    forall i :: 0 <= i < |ws| ==> Clean(ws[i])
  }

  lemma AllCleanSum(a: seq<Bytes>, b: seq<Bytes>)
    requires AllClean(a) && AllClean(b)
    ensures AllClean(a + b)
  {
  }

  lemma FieldsClean(a: Bytes, b: Bytes, c: Bytes, d: Bytes, e: Bytes)
    requires Clean(a) && Clean(b) && Clean(c) && Clean(d) && Clean(e)
    ensures AllClean([a, b, c, d, e]) && AllClean([a, b, c]) && AllClean([a, b]) && AllClean([a]) && AllClean([])
  {
  }

  lemma FixedWordsClean(op: StorageOp, noreply: bool)
    ensures Clean(Verb(op)) && Clean(DELETE) && Clean(TOUCH) && AllClean(Optional(noreply))
  {
  }

  lemma WordsClean(c: Command)
    requires Typed(c) && ValidKey(c.key)
    ensures AllClean(Words(c))
  {
    assert Clean(c.key);
    FixedWordsClean(if c.Store? then c.op else SetOp, c.noreply);
    match c
    case Store(op, key, flags, exptime, value, cas, noreply) => StoreWordsClean(c);
    case Delete(key, noreply) =>
      FieldsClean(DELETE, key, key, key, key);
      AllCleanSum([DELETE, key], Optional(noreply));
    case Touch(key, exptime, noreply) =>
      NumbersRead(exptime);
      FieldsClean(TOUCH, key, SignedDecimal(exptime), key, key);
      AllCleanSum([TOUCH, key, SignedDecimal(exptime)], Optional(noreply));
  }

  lemma StoreWordsClean(c: Command)
    requires Typed(c) && c.Store? && Clean(c.key)
    ensures AllClean(Words(c))
  {
    var f, e, n := SignedDecimal(c.flags), SignedDecimal(c.exptime), SignedDecimal(AsSigned(|c.value|));
    NumbersRead(c.flags);
    NumbersRead(c.exptime);
    NumbersRead(AsSigned(|c.value|));
    FixedWordsClean(c.op, c.noreply);
    FieldsClean(Verb(c.op), c.key, f, e, n);
    var number := match c.cas case Some(u) => [SignedDecimal(AsSigned(u))] case None => [];
    if c.cas.Some? {
      NumbersRead(AsSigned(c.cas.value));
      FieldsClean(SignedDecimal(AsSigned(c.cas.value)), f, f, f, f);
    }
    AllCleanSum([Verb(c.op), c.key, f, e, n], number);
    AllCleanSum([Verb(c.op), c.key, f, e, n] + number, Optional(c.noreply));
  }

  function HeaderOf(c: Command): Header {
    if c.Store? then StoreHeader(c.op, c.key, c.flags, c.exptime, |c.value|, c.cas, c.noreply) else WholeHeader(c)
  }

  function HeaderTo(c: Command): Option<Header> {
    if Fits(c) then Some(HeaderOf(c)) else None
  }

  lemma NoreplyRead(ws: seq<Bytes>, noreply: bool)
    ensures ReadNoreply(ws + Optional(noreply), |ws|) == Some(noreply)
  {
  }

  lemma StoreRead(c: Command)
    requires Typed(c) && c.Store?
    ensures |Words(c)| >= 2 && ReadStore(c.op, Words(c)) ==
            if |c.value| < TWO_63 && (c.cas.Some? ==> c.cas.value < TWO_63) then Some(HeaderOf(c)) else None
  {
    var len := AsSigned(|c.value|);
    var base := [Verb(c.op), c.key, SignedDecimal(c.flags), SignedDecimal(c.exptime), SignedDecimal(len)];
    NumbersRead(c.flags);
    NumbersRead(c.exptime);
    NumbersRead(len);
    var ws := Words(c);
    match c.cas
    case Some(n) =>
      NumbersRead(AsSigned(n));
      assert ws == (base + [SignedDecimal(AsSigned(n))]) + Optional(c.noreply);
      NoreplyRead(base + [SignedDecimal(AsSigned(n))], c.noreply);
    case None =>
      assert ws == base + [] + Optional(c.noreply) == base + Optional(c.noreply);
      NoreplyRead(base, c.noreply);
  }

  /** Reading the words of a command line gives back the command line. */
  lemma HeaderRead(c: Command)
    requires Typed(c)
    ensures ReadHeader(Words(c)) == HeaderTo(c)
  {
    if c.Store? {
      StoreHeaderRead(c);
    } else if c.Delete? {
      NoreplyRead([DELETE, c.key], c.noreply);
    } else {
      NumbersRead(c.exptime);
      NoreplyRead([TOUCH, c.key, SignedDecimal(c.exptime)], c.noreply);
    }
  }

  lemma StoreHeaderRead(c: Command)
    requires Typed(c) && c.Store?
    ensures ReadHeader(Words(c)) == HeaderTo(c)
  {
    StoreRead(c);
    VerbRead(c.op);
  }

  lemma VerbRead(op: StorageOp)
    ensures ReadVerb(Verb(op)) == Some(op) && Verb(op) != DELETE && Verb(op) != TOUCH
  {
    assert Verb(op)[0] != 'd' && Verb(op)[0] != 't';
  }

  /** The end of the command line. */
  lemma LineFound(line: Bytes, rest: Bytes)
    requires NoLineEnd(line)
    ensures var s := line + CRLF + rest;
            && IndexOf('\n', s) == |line| + 1 && s[|line|] == '\r' && s[..|line|] == line && s[|line| + 2..] == rest
  {
    var s := line + CRLF + rest;
    assert s[..|line|] == line && s[|line|] == '\r' && s[|line| + 1] == '\n';
    IndexOfIsFirst('\n', s, |line| + 1);
  }

  /** `DecodeOne(s)` is `d`, sealed against unfolding. */
  ghost predicate Reads(s: Bytes, d: Option<Decoded>) {
    forall t: bool :: ReadsFor(s, d, t)
  }

  ghost predicate ReadsFor(s: Bytes, d: Option<Decoded>, t: bool) {
    DecodeOne(s) == d
  }

  lemma OpenReads(s: Bytes, d: Option<Decoded>)
    requires Reads(s, d)
    ensures DecodeOne(s) == d
  {
    assert ReadsFor(s, d, true);
  }

  lemma LineDecoded(s: Bytes, line: Bytes, after: Bytes, h: Option<Header>, d: Option<Decoded>)
    requires NoLineEnd(line) && s == line + CRLF + after
    requires ReadHeader(Split(line)) == h && WithBody(h, |line| + 2, after) == d
    ensures Reads(s, d)
  {
    LineFound(line, after);
  }

  lemma BodyDecoded(c: Command, n: nat, rest: Bytes)
    requires Typed(c)
    ensures WithBody(Some(HeaderOf(c)), n, Body(c) + rest) == Some(Decoded(c, n + |Body(c)|))
  {
    if c.Store? {
      var after := c.value + CRLF + rest;
      assert after[..|c.value|] == c.value && after[|c.value|..|c.value| + 2] == CRLF;
    }
  }

  function DecodedTo(c: Command, used: nat): Option<Decoded> {
    if Fits(c) then Some(Decoded(c, used)) else None
  }

  lemma HeaderDecoded(c: Command, n: nat, rest: Bytes)
    requires Typed(c)
    ensures WithBody(HeaderTo(c), n, Body(c) + rest) == DecodedTo(c, n + |Body(c)|)
  {
    BodyDecoded(c, n, rest);
  }

  lemma WordsFound(c: Command, line: Bytes)
    requires Typed(c) && ValidKey(c.key) && line == Join(Words(c))
    ensures NoLineEnd(line) && ReadHeader(Split(line)) == HeaderTo(c)
  {
    WordsClean(c);
    SplitJoin(Words(c));
    JoinNoLineEnd(Words(c));
    HeaderRead(c);
  }

  lemma PartsDecoded(c: Command, s: Bytes, line: Bytes, after: Bytes, h: Option<Header>, d: Option<Decoded>)
    requires Typed(c) && ValidKey(c.key) && line == Join(Words(c))
    requires s == line + CRLF + after && h == HeaderTo(c) && WithBody(h, |line| + 2, after) == d
    ensures Reads(s, d)
  {
    WordsFound(c, line);
    LineDecoded(s, line, after, h, d);
  }

  lemma TextParts(line: Bytes, body: Bytes, rest: Bytes, text: Bytes)
    requires text == line + CRLF + body
    ensures text + rest == line + CRLF + (body + rest) && |text| == |line| + 2 + |body|
  {
    Chain2(line + CRLF, body, rest);
  }

  lemma EncodedReads(c: Command, text: Bytes, rest: Bytes)
    requires Typed(c) && ValidKey(c.key) && text == Encode(c)
    ensures Reads(text + rest, DecodedTo(c, |text|))
  {
    var line := Join(Words(c));
    TextParts(line, Body(c), rest, text);
    HeaderDecoded(c, |line| + 2, rest);
    PartsDecoded(c, text + rest, line, Body(c) + rest, HeaderTo(c), DecodedTo(c, |text|));
  }

  /** Decoding what was encoded, whatever follows: exactly the command, and exactly its
      bytes, if the protocol can express it; otherwise nothing. */
  lemma DecodeEncoded(c: Command, text: Bytes, rest: Bytes)
    requires Typed(c) && ValidKey(c.key) && text == Encode(c)
    ensures DecodeOne(text + rest) == (if Fits(c) then Some(Decoded(c, |text|)) else None)
  {
    EncodedReads(c, text, rest);
    OpenReads(text + rest, DecodedTo(c, |text|));
  }

  // ---- whole streams ----

  lemma EncodeSnoc(cs: seq<Command>, c: Command)
    requires AllTyped(cs) && Typed(c)
    ensures AllTyped(cs + [c]) && EncodeAll(cs + [c]) == EncodeAll(cs) + Encode(c)
  {
    var text := Encode(c);
    assert Texts(cs + [c]) == Texts(cs) + [text];
    FlattenSum(Texts(cs), [text]);
    FlattenOne(text);
  }

  predicate AllValid(cs: seq<Command>) {
    forall i :: 0 <= i < |cs| ==> Typed(cs[i]) && ValidKey(cs[i].key)
  }

  predicate AllFit(cs: seq<Command>) {
    forall i :: 0 <= i < |cs| ==> Fits(cs[i])
  }

  /** Framing: a stream of commands is read back as exactly those commands, if and only if
      the protocol can express each of them. */
  lemma {:induction false} Framing(cs: seq<Command>)
    requires AllValid(cs)
    ensures AllTyped(cs) && (DecodeAll(EncodeAll(cs)) == Some(cs) <==> AllFit(cs))
  {
    TextsFraming(cs, Texts(cs));
  }

  /** The texts stand for the commands. */
  ghost predicate AllRead(cs: seq<Command>, ts: seq<Bytes>) {
    && |ts| == |cs|
    && forall i :: 0 <= i < |cs| ==> ReadAs(cs[i], ts[i])
  }

  ghost predicate ReadAs(c: Command, text: Bytes) {
    && text != []
    && forall rest: Bytes :: DecodeOne(text + rest) == DecodedTo(c, |text|)
  }

  lemma EncodeReadAs(c: Command, text: Bytes)
    requires Typed(c) && ValidKey(c.key) && text == Encode(c)
    ensures ReadAs(c, text)
  {
    assert |text| >= |CRLF|;
    forall rest: Bytes ensures DecodeOne(text + rest) == DecodedTo(c, |text|) {
      DecodeEncoded(c, text, rest);
    }
  }

  lemma TextsFraming(cs: seq<Command>, ts: seq<Bytes>)
    requires AllValid(cs) && AllTyped(cs) && ts == Texts(cs)
    ensures DecodeAll(Flatten(ts)) == Some(cs) <==> AllFit(cs)
  {
    forall i | 0 <= i < |cs| ensures ReadAs(cs[i], ts[i]) {
      EncodeReadAs(cs[i], ts[i]);
    }
    ReadFraming(cs, ts);
  }

  lemma FirstText(cs: seq<Command>, ts: seq<Bytes>)
    requires AllRead(cs, ts) && cs != []
    ensures var s, rest := Flatten(ts), Flatten(ts[1..]);
            && s != [] && |ts[0]| <= |s| && s[|ts[0]|..] == rest
            && DecodeOne(s) == DecodedTo(cs[0], |ts[0]|) && AllRead(cs[1..], ts[1..])
  {
    assert ReadAs(cs[0], ts[0]);
    assert Flatten(ts) == ts[0] + Flatten(ts[1..]);
    forall i | 0 <= i < |cs| - 1 ensures ReadAs(cs[1..][i], ts[1..][i]) {
      assert ReadAs(cs[i + 1], ts[i + 1]);
    }
  }

  lemma FitFirst(cs: seq<Command>)
    requires cs != []
    ensures AllFit(cs) <==> Fits(cs[0]) && AllFit(cs[1..])
    ensures cs == [cs[0]] + cs[1..]
  {
    var rest := cs[1..];
    assert forall i :: 0 <= i < |rest| ==> rest[i] == cs[i + 1];
    if Fits(cs[0]) && AllFit(rest) {
      assert forall i :: 1 <= i < |cs| ==> cs[i] == rest[i - 1];
    }
  }

  lemma {:induction false} ReadFraming(cs: seq<Command>, ts: seq<Bytes>)
    requires AllRead(cs, ts)
    ensures DecodeAll(Flatten(ts)) == Some(cs) <==> AllFit(cs)
  {
    if cs != [] {
      FirstText(cs, ts);
      FitFirst(cs);
      ReadFraming(cs[1..], ts[1..]);
      if Fits(cs[0]) {
        OneMore(Flatten(ts), cs[0], |ts[0]|, cs[1..]);
      }
    }
  }

  lemma OneMore(s: Bytes, c: Command, used: nat, cs: seq<Command>)
    requires s != [] && DecodeOne(s) == Some(Decoded(c, used))
    ensures used <= |s| && (DecodeAll(s) == Some([c] + cs) <==> DecodeAll(s[used..]) == Some(cs))
  {
    if DecodeAll(s[used..]).Some? {
      var ds := DecodeAll(s[used..]).value;
      assert DecodeAll(s) == Some([c] + ds);
      assert ([c] + ds)[1..] == ds && ([c] + cs)[1..] == cs;
    }
  }

  /** An empty key passes the check of keys and breaks the framing. */
  lemma EmptyKeyExample()
    ensures var c := Store(SetOp, [], 0, 0, ['v'], None, false);
            AllValid([c]) && AllTyped([c]) && DecodeAll(EncodeAll([c])) != Some([c])
  {
    var c := Store(SetOp, [], 0, 0, ['v'], None, false);
    Framing([c]);
    assert !Fits([c][0]);
  }

  /** So does a cas number of 2^63 or more, which is printed as a negative one. */
  lemma LargeCasExample()
    ensures var c := Store(CasOp, ['k'], 0, 0, ['v'], Some(TWO_63), false);
            AllValid([c]) && AllTyped([c]) && DecodeAll(EncodeAll([c])) != Some([c])
  {
    var c := Store(CasOp, ['k'], 0, 0, ['v'], Some(TWO_63), false);
    Framing([c]);
    assert !Fits([c][0]);
  }
}
