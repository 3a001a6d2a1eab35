/** Every interleaving of the goroutines that use the pool: callers, the opener, the
    cleaner and `Quit`.  A step is a critical section, or what a goroutine does between
    two of them. */
module GoPoolRuns {
  import opened Octets
  import opened GoPools

  /** What a caller is doing: opening a connection of its own, waiting on the channel of its
      request, about to delete the request because its context is done, about to look
      whether a connection had been sent already, using a connection, or quitting it. */
  datatype Caller =
    | Idle
    | Creating
    | Waiting(k: nat)
    | Cancelling(k: nat)
    | Draining(k: nat)
    | Holding(cn: Conn)
    | Quitting(cn: Conn)

  datatype Opener = Resting | Deciding | Opening | Opened(cn: Conn) | Discarding(cn: Conn)

  /** `quitIdx`: how far `Quit` has come with the free connections; `created`: the number
      of connections there have been; `dead`: those that have been quit. */
  datatype Pool = Pool(sh: Shared, callers: seq<Caller>, opener: Opener, cleaner: seq<Conn>,
                       quitIdx: Option<nat>, created: nat, dead: multiset<Conn>)

  datatype Step =
    | TakeFree(p: nat)
    | Request(p: nat)
    | Create(p: nat)
    | Created(p: nat)
    | CreateFailed(p: nat)
    | Receive(p: nat)
    | Cancel(p: nat)
    | Delete(p: nat)
    | Drain(p: nat)
    | Put(p: nat, k: nat)
    | GiveUp(p: nat)
    | FinishQuit(p: nat, ok: bool)
    | OpenerTake
    | OpenerDrop
    | OpenerStart
    | OpenerCreated
    | OpenerFailed
    | OpenerPut(k: nat)
    | OpenerQuit(ok: bool)
    | CleanerSweep(expired: Conn -> bool)
    | CleanerQuit(ok: bool)
    | QuitBegin
    | QuitNext
    | QuitEnd

  function Start(maxOpen: nat, n: nat): Pool {
    Pool(Shared([], {}, [], 0, 0, false, false, false, maxOpen), seq(n, _ => Idle), Resting, [], None, 0, multiset{})
  }

  predicate At(s: Pool, p: nat) {
    p < |s.callers|
  }

  predicate CanPick(sh: Shared, k: nat) {
    sh.requests != {} ==> k in sh.requests && k < |sh.chans|
  }

  /** When a step can be taken. */
  predicate Enabled(s: Pool, step: Step) {
    match step
    case TakeFree(p) => At(s, p) && s.callers[p].Idle? && !s.sh.closed && s.sh.free != []
    case Request(p) => At(s, p) && s.callers[p].Idle? && !s.sh.closed && s.sh.maxOpen > 0 && s.sh.maxOpen <= s.sh.numOpen
    case Create(p) => At(s, p) && s.callers[p].Idle? && !s.sh.closed && !(s.sh.maxOpen > 0 && s.sh.maxOpen <= s.sh.numOpen)
    case Created(p) => At(s, p) && s.callers[p].Creating?
    case CreateFailed(p) => At(s, p) && s.callers[p].Creating?
    case Receive(p) =>
      At(s, p) && s.callers[p].Waiting? && s.callers[p].k < |s.sh.chans| &&
      (s.sh.chans[s.callers[p].k].buf.Some? || s.sh.chans[s.callers[p].k].closed)
    case Cancel(p) => At(s, p) && s.callers[p].Waiting?
    case Delete(p) => At(s, p) && s.callers[p].Cancelling?
    case Drain(p) => At(s, p) && s.callers[p].Draining? && s.callers[p].k < |s.sh.chans|
    case Put(p, k) => At(s, p) && s.callers[p].Holding? && CanPick(s.sh, k)
    case GiveUp(p) => At(s, p) && s.callers[p].Holding?
    case FinishQuit(p, _) => At(s, p) && s.callers[p].Quitting?
    case OpenerTake => s.opener.Resting? && s.sh.tokens > 0
    case OpenerDrop => s.opener.Deciding? && s.sh.closed
    case OpenerStart => s.opener.Deciding? && !s.sh.closed
    case OpenerCreated => s.opener.Opening?
    case OpenerFailed => s.opener.Opening?
    case OpenerPut(k) => s.opener.Opened? && CanPick(s.sh, k)
    case OpenerQuit(_) => s.opener.Discarding?
    case CleanerSweep(_) => s.cleaner == [] && !s.sh.closed
    case CleanerQuit(_) => s.cleaner != []
    case QuitBegin => !s.sh.closed
    case QuitNext => s.quitIdx.Some? && s.quitIdx.value < |s.sh.free|
    case QuitEnd => s.quitIdx.Some? && s.quitIdx.value >= |s.sh.free|
  }

  /** Receiving from a channel takes the connection out of it; a closed one gives none. */
  function Received(ch: Chan): Caller {
    match ch.buf case Some(cn) => Holding(cn) case None => Idle
  }

  function Emptied(sh: Shared, k: nat): Shared
    requires k < |sh.chans|
  {
    sh.(chans := sh.chans[k := sh.chans[k].(buf := None)])
  }

  function Set(s: Pool, p: nat, c: Caller): Pool
    requires At(s, p)
  {
    s.(callers := s.callers[p := c])
  }

  function Do(s: Pool, step: Step): Pool
    requires Enabled(s, step)
  {
    match step
    case TakeFree(p) => Set(s, p, Holding(s.sh.free[0])).(sh := s.sh.(free := s.sh.free[1..]))
    case Request(p) => Set(s, p, Waiting(|s.sh.chans|)).(sh := NewRequest(s.sh, p))
    case Create(p) => Set(s, p, Creating).(sh := Count(s.sh, 1))
    case Created(p) => Set(s, p, Holding(s.created)).(created := s.created + 1)
    case CreateFailed(p) => Set(s, p, Idle).(sh := MaybeOpen(Count(s.sh, -1)))
    case Receive(p) =>
      var k := s.callers[p].k;
      Set(s, p, Received(s.sh.chans[k])).(sh := Emptied(s.sh, k))
    case Cancel(p) => Set(s, p, Cancelling(s.callers[p].k))
    case Delete(p) => Set(s, p, Draining(s.callers[p].k)).(sh := s.sh.(requests := s.sh.requests - {s.callers[p].k}))
    case Drain(p) =>
      var k := s.callers[p].k;
      Set(s, p, Received(s.sh.chans[k])).(sh := Emptied(s.sh, k))
    case Put(p, k) =>
      var cn := s.callers[p].cn;
      if Refuses(s.sh) then Set(s, p, Quitting(cn)) else Set(s, p, Idle).(sh := PutLocked(s.sh, cn, k))
    case GiveUp(p) => Set(s, p, Quitting(s.callers[p].cn))
    case FinishQuit(p, ok) =>
      Set(s, p, Idle).(sh := AfterQuit(s.sh, ok), dead := s.dead + multiset{s.callers[p].cn})
    case OpenerTake => s.(opener := Deciding, sh := s.sh.(tokens := s.sh.tokens - 1))
    case OpenerDrop => s.(opener := Resting, sh := Count(s.sh, -1))
    case OpenerStart => s.(opener := Opening)
    case OpenerCreated => s.(opener := Opened(s.created), created := s.created + 1)
    case OpenerFailed => s.(opener := Resting, sh := MaybeOpen(Count(s.sh, -1)))
    case OpenerPut(k) =>
      var cn := s.opener.cn;
      if Refuses(s.sh) then s.(opener := Discarding(cn)) else s.(opener := Resting, sh := PutLocked(s.sh, cn, k))
    case OpenerQuit(ok) => s.(opener := Resting, sh := AfterQuit(s.sh, ok), dead := s.dead + multiset{s.opener.cn})
    case CleanerSweep(expired) =>
      var r := Sweep(s.sh.free, expired, 0);
      s.(sh := s.sh.(free := r.0), cleaner := r.1)
    case CleanerQuit(ok) =>
      s.(cleaner := s.cleaner[1..], sh := AfterQuit(s.sh, ok), dead := s.dead + multiset{s.cleaner[0]})
    case QuitBegin => s.(sh := CloseAll(s.sh), quitIdx := Some(0))
    case QuitNext =>
      var i := s.quitIdx.value;
      s.(quitIdx := Some(i + 1), sh := Count(s.sh, -1), dead := s.dead + multiset{s.sh.free[i]})
    case QuitEnd => s.(quitIdx := None, sh := s.sh.(free := []))
  }

  // ---- where the connections are ----

  function ConnsOf(c: Caller): multiset<Conn> {
    match c
    case Holding(cn) => multiset{cn}
    case Quitting(cn) => multiset{cn}
    case _ => multiset{}
  }

  function CallerConns(cs: seq<Caller>): multiset<Conn> {
    if cs == [] then multiset{} else CallerConns(cs[..|cs| - 1]) + ConnsOf(cs[|cs| - 1])
  }

  function BufConns(ch: Chan): multiset<Conn> {
    match ch.buf case Some(cn) => multiset{cn} case None => multiset{}
  }

  function ChanConns(chs: seq<Chan>): multiset<Conn> {
    if chs == [] then multiset{} else ChanConns(chs[..|chs| - 1]) + BufConns(chs[|chs| - 1])
  }

  function OpenerConns(o: Opener): multiset<Conn> {
    match o
    case Opened(cn) => multiset{cn}
    case Discarding(cn) => multiset{cn}
    case _ => multiset{}
  }

  /** The free connections that `Quit` has not got to yet. */
  function FreeFrom(free: seq<Conn>, quitIdx: Option<nat>): seq<Conn> {
    match quitIdx
    case Some(i) => if i <= |free| then free[i..] else []
    case None => free
  }

  function LiveFree(s: Pool): seq<Conn> {
    FreeFrom(s.sh.free, s.quitIdx)
  }

  function IsCreating(c: Caller): nat {
    if c.Creating? then 1 else 0
  }

  function CallersCreating(cs: seq<Caller>): nat {
    if cs == [] then 0 else CallersCreating(cs[..|cs| - 1]) + IsCreating(cs[|cs| - 1])
  }

  function OpenerPending(o: Opener): nat {
    if o.Deciding? || o.Opening? then 1 else 0
  }

  /** The connections created so far, each once. */
  function AllConns(n: nat): multiset<Conn> {
    if n == 0 then multiset{} else AllConns(n - 1) + multiset{n - 1}
  }

  // ---- the invariant ----

  /** All places a live connection can be in: the free list, a channel, a caller, the
      opener, the cleaner. */
  ghost function Owned(s: Pool): multiset<Conn> {
    multiset(LiveFree(s)) + ChanConns(s.sh.chans) + CallerConns(s.callers) + OpenerConns(s.opener) + multiset(s.cleaner)
  }

  /** `numOpen` is the number of opener tokens, of connections being opened, and of live
      connections, and it never exceeds `maxOpen`. */
  ghost predicate Counted(s: Pool) {
    && s.sh.numOpen == s.sh.tokens + OpenerPending(s.opener) + CallersCreating(s.callers) + |Owned(s)|
    && s.sh.numOpen <= s.sh.maxOpen
  }

  /** Every connection that was ever created is in exactly one place, or dead, once. */
  ghost predicate Placed(s: Pool) {
    Owned(s) + s.dead == AllConns(s.created)
  }

  predicate QuitInOrder(s: Pool) {
    match s.quitIdx
    case Some(i) => s.sh.closed && i <= |s.sh.free|
    case None => s.sh.closed ==> s.sh.free == []
  }

  predicate Awaits(c: Caller, k: nat) {
    (c.Waiting? || c.Cancelling? || c.Draining?) && c.k == k
  }

  predicate IsWaiter(s: Pool, k: nat) {
    k < |s.sh.chans| && At(s, s.sh.chans[k].waiter) && Awaits(s.callers[s.sh.chans[k].waiter], k)
  }

  /** A request in the map has an empty channel, which is closed exactly when the pool is;
      until then there is a goroutine waiting for it. */
  predicate RequestInOrder(s: Pool, k: nat) {
    && k < |s.sh.chans| && s.sh.chans[k].buf.None? && s.sh.chans[k].closed == s.sh.closed
    && (!s.sh.closed ==> IsWaiter(s, k))
  }

  /** A full channel has a goroutine that will take the connection out of it. */
  predicate FullInOrder(s: Pool, k: nat)
    requires k < |s.sh.chans|
  {
    s.sh.chans[k].buf.Some? ==> IsWaiter(s, k)
  }

  /** Every goroutine waits for a request of its own. */
  predicate CallerInOrder(sh: Shared, p: nat, c: Caller) {
    match c
    case Waiting(k) => k < |sh.chans| && sh.chans[k].waiter == p && (k in sh.requests <==> sh.chans[k].buf.None?)
    case Cancelling(k) => k < |sh.chans| && sh.chans[k].waiter == p && (k in sh.requests <==> sh.chans[k].buf.None?)
    case Draining(k) => k < |sh.chans| && sh.chans[k].waiter == p && k !in sh.requests
    case _ => true
  }

  predicate ChannelsInOrder(s: Pool) {
    && (forall k :: k in s.sh.requests ==> RequestInOrder(s, k))
    && (forall k :: 0 <= k < |s.sh.chans| ==> FullInOrder(s, k))
    && (forall p :: 0 <= p < |s.callers| ==> CallerInOrder(s.sh, p, s.callers[p]))
  }

  /** If the opener channel has room for `maxOpen` tokens nobody ever waits to send one. */
  predicate NeverBlocks(sh: Shared) {
    sh.maxOpen <= QUEUE_SIZE ==> !sh.blocked
  }

  ghost predicate Inv(s: Pool) {
    !s.sh.broken && NeverBlocks(s.sh) && s.sh.maxOpen > 0 && Counted(s) && Placed(s) && QuitInOrder(s) && ChannelsInOrder(s)
  }

  // ---- sums ----

  lemma Exchange(a': multiset<Conn>, x: multiset<Conn>, a: multiset<Conn>, y: multiset<Conn>, rest: multiset<Conn>)
    requires a' + x == a + y
    ensures a' + rest + x == a + rest + y
  {
    assert a' + rest + x == (a' + x) + rest;
    assert a + rest + y == (a + y) + rest;
  }

  /** What is taken from each of five parts and put into each of them. */
  lemma FiveParts(a: multiset<Conn>, b: multiset<Conn>, c: multiset<Conn>, d: multiset<Conn>, e: multiset<Conn>,
                  a': multiset<Conn>, b': multiset<Conn>, c': multiset<Conn>, d': multiset<Conn>, e': multiset<Conn>,
                  p: multiset<Conn>, q: multiset<Conn>, r: multiset<Conn>, s: multiset<Conn>, t: multiset<Conn>,
                  p': multiset<Conn>, q': multiset<Conn>, r': multiset<Conn>, s': multiset<Conn>, t': multiset<Conn>)
    requires a' + p == a + p' && b' + q == b + q' && c' + r == c + r' && d' + s == d + s' && e' + t == e + t'
    ensures a' + b' + c' + d' + e' + (p + q + r + s + t) == a + b + c + d + e + (p' + q' + r' + s' + t')
  {
    assert a' + b' + c' + d' + e' + (p + q + r + s + t) == (a' + p) + (b' + q) + (c' + r) + (d' + s) + (e' + t);
    assert a + b + c + d + e + (p' + q' + r' + s' + t') == (a + p') + (b + q') + (c + r') + (d + s') + (e + t');
  }

  // ---- changing one place ----

  lemma CallerLast(cs: seq<Caller>, c: Caller)
    ensures CallerConns(cs + [c]) == CallerConns(cs) + ConnsOf(c)
    ensures CallersCreating(cs + [c]) == CallersCreating(cs) + IsCreating(c)
  {
    assert (cs + [c])[..|cs|] == cs;
  }

  lemma {:induction false} CallerSet(cs: seq<Caller>, p: nat, c: Caller)
    requires p < |cs|
    ensures CallerConns(cs[p := c]) + ConnsOf(cs[p]) == CallerConns(cs) + ConnsOf(c)
    ensures CallersCreating(cs[p := c]) + IsCreating(cs[p]) == CallersCreating(cs) + IsCreating(c)
    decreases |cs|
  {
    var n := |cs| - 1;
    var init, last := cs[..n], cs[n];
    assert cs == init + [last];
    CallerLast(init, last);
    if p == n {
      assert cs[p := c] == init + [c];
      CallerLast(init, c);
      Exchange(ConnsOf(c), ConnsOf(last), ConnsOf(last), ConnsOf(c), CallerConns(init));
    } else {
      assert cs[p := c] == init[p := c] + [last];
      CallerSet(init, p, c);
      CallerLast(init[p := c], last);
      Exchange(CallerConns(init[p := c]), ConnsOf(cs[p]), CallerConns(init), ConnsOf(c), ConnsOf(last));
    }
  }

  lemma ChanLast(chs: seq<Chan>, ch: Chan)
    ensures ChanConns(chs + [ch]) == ChanConns(chs) + BufConns(ch)
  {
    assert (chs + [ch])[..|chs|] == chs;
  }

  lemma {:induction false} ChanSet(chs: seq<Chan>, k: nat, ch: Chan)
    requires k < |chs|
    ensures ChanConns(chs[k := ch]) + BufConns(chs[k]) == ChanConns(chs) + BufConns(ch)
    decreases |chs|
  {
    var n := |chs| - 1;
    var init, last := chs[..n], chs[n];
    assert chs == init + [last];
    ChanLast(init, last);
    if k == n {
      assert chs[k := ch] == init + [ch];
      ChanLast(init, ch);
      Exchange(BufConns(ch), BufConns(last), BufConns(last), BufConns(ch), ChanConns(init));
    } else {
      assert chs[k := ch] == init[k := ch] + [last];
      ChanSet(init, k, ch);
      ChanLast(init[k := ch], last);
      Exchange(ChanConns(init[k := ch]), BufConns(chs[k]), ChanConns(init), BufConns(ch), BufConns(last));
    }
  }

  lemma {:induction false} ChanSame(a: seq<Chan>, b: seq<Chan>)
    requires |a| == |b| && forall k :: 0 <= k < |a| ==> a[k].buf == b[k].buf
    ensures ChanConns(a) == ChanConns(b)
  {
    if a != [] {
      ChanSame(a[..|a| - 1], b[..|b| - 1]);
    }
  }

  // ---- the books: the parts of `Owned`, sealed against unfolding ----

  /** What is in the free list, in the channels and with the callers, and how many callers
      are creating a connection. */
  datatype Books = Books(free: multiset<Conn>, chans: multiset<Conn>, callers: multiset<Conn>, creating: nat)

  ghost predicate FreeAre(free: seq<Conn>, quitIdx: Option<nat>, m: multiset<Conn>) {
    forall t: bool :: FreeAreFor(free, quitIdx, m, t)
  }

  ghost predicate FreeAreFor(free: seq<Conn>, quitIdx: Option<nat>, m: multiset<Conn>, t: bool) {
    m == multiset(FreeFrom(free, quitIdx))
  }

  ghost predicate ChansAre(chs: seq<Chan>, m: multiset<Conn>) {
    forall t: bool :: ChansAreFor(chs, m, t)
  }

  ghost predicate ChansAreFor(chs: seq<Chan>, m: multiset<Conn>, t: bool) {
    m == ChanConns(chs)
  }

  ghost predicate CallersAre(cs: seq<Caller>, m: multiset<Conn>, n: nat) {
    forall t: bool :: CallersAreFor(cs, m, n, t)
  }

  ghost predicate CallersAreFor(cs: seq<Caller>, m: multiset<Conn>, n: nat, t: bool) {
    m == CallerConns(cs) && n == CallersCreating(cs)
  }

  lemma SetCaller(s: Pool, b: Books, p: nat, c: Caller) returns (m: multiset<Conn>, n: nat)
    requires CallersAre(s.callers, b.callers, b.creating) && At(s, p)
    ensures CallersAre(s.callers[p := c], m, n)
    ensures m + ConnsOf(s.callers[p]) == b.callers + ConnsOf(c)
    ensures n + IsCreating(s.callers[p]) == b.creating + IsCreating(c)
  {
    assert CallersAreFor(s.callers, b.callers, b.creating, true);
    CallerSet(s.callers, p, c);
    m, n := CallerConns(s.callers[p := c]), CallersCreating(s.callers[p := c]);
  }

  lemma SetChan(s: Pool, b: Books, k: nat, ch: Chan) returns (m: multiset<Conn>)
    requires ChansAre(s.sh.chans, b.chans) && k < |s.sh.chans|
    ensures ChansAre(s.sh.chans[k := ch], m)
    ensures m + BufConns(s.sh.chans[k]) == b.chans + BufConns(ch)
  {
    assert ChansAreFor(s.sh.chans, b.chans, true);
    ChanSet(s.sh.chans, k, ch);
    m := ChanConns(s.sh.chans[k := ch]);
  }

  lemma AddChan(s: Pool, b: Books, ch: Chan)
    requires ChansAre(s.sh.chans, b.chans) && ch.buf.None?
    ensures ChansAre(s.sh.chans + [ch], b.chans)
  {
    assert ChansAreFor(s.sh.chans, b.chans, true);
    ChanLast(s.sh.chans, ch);
    assert ChanConns(s.sh.chans + [ch]) == b.chans;
  }

  lemma SameChans(s: Pool, b: Books, chs: seq<Chan>)
    requires ChansAre(s.sh.chans, b.chans)
    requires |chs| == |s.sh.chans| && forall k :: 0 <= k < |chs| ==> chs[k].buf == s.sh.chans[k].buf
    ensures ChansAre(chs, b.chans)
  {
    assert ChansAreFor(s.sh.chans, b.chans, true);
    ChanSame(chs, s.sh.chans);
  }

  /** The first live free connection is taken away. */
  lemma PopFree(free: seq<Conn>, quitIdx: Option<nat>, m: multiset<Conn>, free': seq<Conn>, quitIdx': Option<nat>)
    returns (m': multiset<Conn>, cn: Conn)
    requires FreeAre(free, quitIdx, m) && FreeFrom(free, quitIdx) != []
    requires FreeFrom(free', quitIdx') == FreeFrom(free, quitIdx)[1..]
    ensures FreeAre(free', quitIdx', m') && m' + multiset{cn} == m && cn == FreeFrom(free, quitIdx)[0]
  {
    assert FreeAreFor(free, quitIdx, m, true);
    var f := FreeFrom(free, quitIdx);
    cn := f[0];
    assert f == [cn] + f[1..];
    m' := multiset(f[1..]);
  }

  lemma PushFree(free: seq<Conn>, m: multiset<Conn>, cn: Conn)
    requires FreeAre(free, None, m)
    ensures FreeAre(free + [cn], None, m + multiset{cn})
  {
    assert FreeAreFor(free, None, m, true);
    assert multiset(free + [cn]) == m + multiset{cn};
  }

  ghost function Total(s: Pool, b: Books): multiset<Conn> {
    b.free + b.chans + b.callers + OpenerConns(s.opener) + multiset(s.cleaner)
  }

  /** The books are balanced. */
  ghost predicate Balanced(s: Pool, b: Books) {
    && FreeAre(s.sh.free, s.quitIdx, b.free) && ChansAre(s.sh.chans, b.chans)
    && CallersAre(s.callers, b.callers, b.creating)
    && s.sh.numOpen == s.sh.tokens + OpenerPending(s.opener) + b.creating + |Total(s, b)|
    && Total(s, b) + s.dead == AllConns(s.created)
  }

  lemma OpenBooks(s: Pool, b: Books)
    requires Balanced(s, b)
    ensures Total(s, b) == Owned(s) && b.creating == CallersCreating(s.callers)
  {
    assert FreeAreFor(s.sh.free, s.quitIdx, b.free, true);
    assert ChansAreFor(s.sh.chans, b.chans, true);
    assert CallersAreFor(s.callers, b.callers, b.creating, true);
  }

  lemma KeepBooks(s: Pool) returns (b: Books)
    requires Counted(s) && Placed(s)
    ensures Balanced(s, b)
  {
    b := Books(multiset(LiveFree(s)), ChanConns(s.sh.chans), CallerConns(s.callers), CallersCreating(s.callers));
    assert FreeAre(s.sh.free, s.quitIdx, b.free) && ChansAre(s.sh.chans, b.chans);
    assert CallersAre(s.callers, b.callers, b.creating);
    assert Total(s, b) == Owned(s);
  }

  lemma Sums(x: multiset<Conn>, x': multiset<Conn>, born: multiset<Conn>, died: multiset<Conn>, dead: multiset<Conn>)
    requires x' + died == x + born
    ensures |x'| + |died| == |x| + |born|
    ensures x' + (dead + died) == (x + dead) + born
  {
    assert |x' + died| == |x'| + |died| && |x + born| == |x| + |born|;
    assert x' + (dead + died) == (x' + died) + dead;
    assert x + born + dead == (x + dead) + born;
  }

  /** A step in which the connections `born` were created and `died` were quit. */
  lemma Balance(s: Pool, b: Books, s': Pool, b': Books, born: multiset<Conn>, died: multiset<Conn>)
    requires Balanced(s, b) && s'.dead == s.dead + died
    requires FreeAre(s'.sh.free, s'.quitIdx, b'.free) && ChansAre(s'.sh.chans, b'.chans)
    requires CallersAre(s'.callers, b'.callers, b'.creating)
    requires Total(s', b') + died == Total(s, b) + born
    requires AllConns(s'.created) == AllConns(s.created) + born
    requires s'.sh.numOpen - s.sh.numOpen ==
             s'.sh.tokens - s.sh.tokens + OpenerPending(s'.opener) - OpenerPending(s.opener)
             + b'.creating - b.creating + |born| - |died|
    ensures Balanced(s', b')
  {
    Sums(Total(s, b), Total(s', b'), born, died, s.dead);
  }

  const NONE: multiset<Conn> := multiset{}

  // ---- the books, step by step ----

  lemma Parts(s: Pool, b: Books, s': Pool, b': Books,
              p: multiset<Conn>, q: multiset<Conn>, r: multiset<Conn>, t: multiset<Conn>, u: multiset<Conn>,
              p': multiset<Conn>, q': multiset<Conn>, r': multiset<Conn>, t': multiset<Conn>, u': multiset<Conn>)
    requires b'.free + p == b.free + p' && b'.chans + q == b.chans + q' && b'.callers + r == b.callers + r'
    requires OpenerConns(s'.opener) + t == OpenerConns(s.opener) + t' && multiset(s'.cleaner) + u == multiset(s.cleaner) + u'
    ensures Total(s', b') + (p + q + r + t + u) == Total(s, b) + (p' + q' + r' + t' + u')
  {
    FiveParts(b.free, b.chans, b.callers, OpenerConns(s.opener), multiset(s.cleaner),
              b'.free, b'.chans, b'.callers, OpenerConns(s'.opener), multiset(s'.cleaner), p, q, r, t, u, p', q', r', t', u');
  }

  lemma MaybeOpenCounts(sh: Shared)
    requires sh.maxOpen > 0 && sh.numOpen <= sh.maxOpen
    ensures var sh' := MaybeOpen(sh);
            && sh' == sh.(numOpen := sh'.numOpen, tokens := sh'.tokens, blocked := sh'.blocked)
            && sh'.numOpen - sh.numOpen == sh'.tokens - sh.tokens && sh'.numOpen <= sh.maxOpen
    ensures NeverBlocks(sh) && sh.tokens <= sh.numOpen ==> NeverBlocks(MaybeOpen(sh))
  {
  }

  lemma AfterQuitCounts(sh: Shared, ok: bool)
    requires sh.maxOpen > 0 && sh.numOpen <= sh.maxOpen
    ensures var sh' := AfterQuit(sh, ok);
            && sh'.free == sh.free && sh'.chans == sh.chans
            && sh'.numOpen - sh'.tokens == sh.numOpen - sh.tokens - 1
  {
    MaybeOpenCounts(Count(sh, -1));
  }

  lemma Cancelled(x: multiset<Conn>, y: multiset<Conn>, z: multiset<Conn>)
    requires x + z == y + z
    ensures x == y
  {
    assert x == (x + z) - z && y == (y + z) - z;
  }

  /** What is taken out of the parts was quit or moved on, and what is put into them was
      created or moved. */
  lemma Settle(x': multiset<Conn>, gone: multiset<Conn>, x: multiset<Conn>, come: multiset<Conn>,
               moved: multiset<Conn>, born: multiset<Conn>, died: multiset<Conn>)
    requires x' + gone == x + come && gone == died + moved && come == born + moved
    ensures x' + died == x + born
  {
    assert x' + gone == (x' + died) + moved;
    assert x + come == (x + born) + moved;
    Cancelled(x' + died, x + born, moved);
  }

  /** The parts a step touches: what it takes from each and what it puts there. */
  datatype Moves = Moves(free: multiset<Conn>, chans: multiset<Conn>, callers: multiset<Conn>, opener: multiset<Conn>,
                         cleaner: multiset<Conn>)

  const NOTHING := Moves(NONE, NONE, NONE, NONE, NONE)

  function SumOf(m: Moves): multiset<Conn> {
    m.free + m.chans + m.callers + m.opener + m.cleaner
  }

  /** One step, entered in the books. */
  lemma Enter(s: Pool, b: Books, s': Pool, b': Books, gone: Moves, come: Moves,
              moved: multiset<Conn>, born: multiset<Conn>, died: multiset<Conn>)
    requires Balanced(s, b) && s'.dead == s.dead + died
    requires FreeAre(s'.sh.free, s'.quitIdx, b'.free) && ChansAre(s'.sh.chans, b'.chans)
    requires CallersAre(s'.callers, b'.callers, b'.creating)
    requires b'.free + gone.free == b.free + come.free && b'.chans + gone.chans == b.chans + come.chans
    requires b'.callers + gone.callers == b.callers + come.callers
    requires OpenerConns(s'.opener) + gone.opener == OpenerConns(s.opener) + come.opener
    requires multiset(s'.cleaner) + gone.cleaner == multiset(s.cleaner) + come.cleaner
    requires SumOf(gone) == died + moved && SumOf(come) == born + moved
    requires AllConns(s'.created) == AllConns(s.created) + born
    requires s'.sh.numOpen - s.sh.numOpen ==
             s'.sh.tokens - s.sh.tokens + OpenerPending(s'.opener) - OpenerPending(s.opener)
             + b'.creating - b.creating + |born| - |died|
    ensures Balanced(s', b')
  {
    Parts(s, b, s', b', gone.free, gone.chans, gone.callers, gone.opener, gone.cleaner,
          come.free, come.chans, come.callers, come.opener, come.cleaner);
    Settle(Total(s', b'), SumOf(gone), Total(s, b), SumOf(come), moved, born, died);
    Balance(s, b, s', b', born, died);
  }

  /** A caller that changes its state without getting or losing a connection. */
  lemma CallerBooks(s: Pool, b: Books, p: nat, c: Caller, sh': Shared) returns (b': Books)
    requires Balanced(s, b) && At(s, p) && ConnsOf(c) == ConnsOf(s.callers[p])
    requires FreeAre(sh'.free, s.quitIdx, b.free) && ChansAre(sh'.chans, b.chans)
    requires sh'.numOpen - sh'.tokens == s.sh.numOpen - s.sh.tokens + IsCreating(c) - IsCreating(s.callers[p])
    ensures Balanced(Set(s, p, c).(sh := sh'), b')
  {
    var m, n := SetCaller(s, b, p, c);
    b' := b.(callers := m, creating := n);
    var same := NOTHING.(callers := ConnsOf(c));
    Enter(s, b, Set(s, p, c).(sh := sh'), b', same, same, SumOf(same), NONE, NONE);
  }

  /** A caller that gets a connection out of the free list or from a channel, or creates
      one, or loses one. */
  lemma TakeFreeBooks(s: Pool, b: Books, p: nat) returns (b': Books)
    requires Balanced(s, b) && Enabled(s, TakeFree(p)) && s.quitIdx.None?
    ensures Balanced(Do(s, TakeFree(p)), b')
  {
    var f, cn := PopFree(s.sh.free, None, b.free, s.sh.free[1..], None);
    var m, n := SetCaller(s, b, p, Holding(cn));
    b' := b.(free := f, callers := m, creating := n);
    var one := multiset{cn};
    Enter(s, b, Do(s, TakeFree(p)), b', NOTHING.(free := one), NOTHING.(callers := one), one, NONE, NONE);
  }

  lemma CreatedBooks(s: Pool, b: Books, p: nat) returns (b': Books)
    requires Balanced(s, b) && Enabled(s, Created(p))
    ensures Balanced(Do(s, Created(p)), b')
  {
    var one := multiset{s.created};
    var m, n := SetCaller(s, b, p, Holding(s.created));
    b' := b.(callers := m, creating := n);
    Enter(s, b, Do(s, Created(p)), b', NOTHING, NOTHING.(callers := one), NONE, one, NONE);
  }

  lemma ReceiveBooks(s: Pool, b: Books, p: nat, k: nat) returns (b': Books)
    requires Balanced(s, b) && At(s, p) && k < |s.sh.chans|
    requires ConnsOf(s.callers[p]) == NONE && IsCreating(s.callers[p]) == 0
    ensures Balanced(Set(s, p, Received(s.sh.chans[k])).(sh := Emptied(s.sh, k)), b')
  {
    var ch := s.sh.chans[k];
    var one := BufConns(ch);
    var m, n := SetCaller(s, b, p, Received(ch));
    var c := SetChan(s, b, k, ch.(buf := None));
    b' := b.(chans := c, callers := m, creating := n);
    Enter(s, b, Set(s, p, Received(ch)).(sh := Emptied(s.sh, k)), b', NOTHING.(chans := one), NOTHING.(callers := one), one, NONE, NONE);
  }

  lemma FinishQuitBooks(s: Pool, b: Books, p: nat, ok: bool) returns (b': Books)
    requires Balanced(s, b) && Enabled(s, FinishQuit(p, ok)) && s.sh.maxOpen > 0 && s.sh.numOpen <= s.sh.maxOpen
    ensures Balanced(Do(s, FinishQuit(p, ok)), b')
  {
    var one := multiset{s.callers[p].cn};
    var m, n := SetCaller(s, b, p, Idle);
    b' := b.(callers := m, creating := n);
    AfterQuitCounts(s.sh, ok);
    Enter(s, b, Do(s, FinishQuit(p, ok)), b', NOTHING.(callers := one), NOTHING, NONE, NONE, one);
  }

  /** `putConnLocked`: into the channel of a request or into the free list. */
  lemma PutBooks(s: Pool, b: Books, cn: Conn, k: nat) returns (f: multiset<Conn>, c: multiset<Conn>)
    requires Balanced(s, b) && CanPick(s.sh, k) && !Refuses(s.sh) && s.quitIdx.None?
    requires s.sh.requests != {} ==> s.sh.chans[k].buf.None?
    ensures FreeAre(PutLocked(s.sh, cn, k).free, None, f) && ChansAre(PutLocked(s.sh, cn, k).chans, c)
    ensures if s.sh.requests != {} then f == b.free && c == b.chans + multiset{cn}
            else f == b.free + multiset{cn} && c == b.chans
  {
    f, c := b.free, b.chans;
    if s.sh.requests != {} {
      c := SetChan(s, b, k, s.sh.chans[k].(buf := Some(cn)));
      assert c + NONE == c;
    } else {
      PushFree(s.sh.free, b.free, cn);
      f := b.free + multiset{cn};
    }
  }

  lemma CallerPutBooks(s: Pool, b: Books, p: nat, k: nat) returns (b': Books)
    requires Balanced(s, b) && Enabled(s, Put(p, k)) && !Refuses(s.sh) && s.quitIdx.None?
    requires s.sh.requests != {} ==> s.sh.chans[k].buf.None?
    ensures Balanced(Do(s, Put(p, k)), b')
  {
    var cn := s.callers[p].cn;
    var one := multiset{cn};
    var m, n := SetCaller(s, b, p, Idle);
    var f, c := PutBooks(s, b, cn, k);
    b' := Books(f, c, m, n);
    var come := if s.sh.requests != {} then NOTHING.(chans := one) else NOTHING.(free := one);
    Enter(s, b, Do(s, Put(p, k)), b', NOTHING.(callers := one), come, one, NONE, NONE);
  }

  lemma OpenerPutBooks(s: Pool, b: Books, k: nat) returns (b': Books)
    requires Balanced(s, b) && Enabled(s, OpenerPut(k)) && !Refuses(s.sh) && s.quitIdx.None?
    requires s.sh.requests != {} ==> s.sh.chans[k].buf.None?
    ensures Balanced(Do(s, OpenerPut(k)), b')
  {
    var cn := s.opener.cn;
    var one := multiset{cn};
    var f, c := PutBooks(s, b, cn, k);
    b' := b.(free := f, chans := c);
    var come := if s.sh.requests != {} then NOTHING.(chans := one) else NOTHING.(free := one);
    Enter(s, b, Do(s, OpenerPut(k)), b', NOTHING.(opener := one), come, one, NONE, NONE);
  }

  lemma OpenerCreatedBooks(s: Pool, b: Books)
    requires Balanced(s, b) && Enabled(s, OpenerCreated)
    ensures Balanced(Do(s, OpenerCreated), b)
  {
    var one := multiset{s.created};
    Enter(s, b, Do(s, OpenerCreated), b, NOTHING, NOTHING.(opener := one), NONE, one, NONE);
  }

  lemma OpenerQuitBooks(s: Pool, b: Books, ok: bool)
    requires Balanced(s, b) && Enabled(s, OpenerQuit(ok)) && s.sh.maxOpen > 0 && s.sh.numOpen <= s.sh.maxOpen
    ensures Balanced(Do(s, OpenerQuit(ok)), b)
  {
    AfterQuitCounts(s.sh, ok);
    var one := multiset{s.opener.cn};
    Enter(s, b, Do(s, OpenerQuit(ok)), b, NOTHING.(opener := one), NOTHING, NONE, NONE, one);
  }

  /** The opener goes on without getting or losing a connection. */
  lemma OpenerMoves(s: Pool, b: Books, opener: Opener, sh': Shared)
    requires Balanced(s, b) && OpenerConns(opener) == OpenerConns(s.opener)
    requires FreeAre(sh'.free, s.quitIdx, b.free) && ChansAre(sh'.chans, b.chans)
    requires sh'.numOpen - sh'.tokens == s.sh.numOpen - s.sh.tokens + OpenerPending(opener) - OpenerPending(s.opener)
    ensures Balanced(s.(opener := opener, sh := sh'), b)
  {
    var same := NOTHING.(opener := OpenerConns(opener));
    Enter(s, b, s.(opener := opener, sh := sh'), b, same, same, SumOf(same), NONE, NONE);
  }

  lemma OpenerFailedBooks(s: Pool, b: Books)
    requires Balanced(s, b) && Enabled(s, OpenerFailed) && s.sh.maxOpen > 0 && s.sh.numOpen <= s.sh.maxOpen
    ensures Balanced(Do(s, OpenerFailed), b)
  {
    MaybeOpenCounts(Count(s.sh, -1));
    OpenerMoves(s, b, Resting, MaybeOpen(Count(s.sh, -1)));
  }

  lemma OpenerRefusedBooks(s: Pool, b: Books, k: nat)
    requires Balanced(s, b) && Enabled(s, OpenerPut(k)) && Refuses(s.sh)
    ensures Balanced(Do(s, OpenerPut(k)), b)
  {
    OpenerMoves(s, b, Discarding(s.opener.cn), s.sh);
  }

  /** Other steps of the opener that do not touch the free list or a channel. */
  lemma OpenerBooks(s: Pool, b: Books, step: Step)
    requires Balanced(s, b) && Enabled(s, step)
    requires step.OpenerTake? || step.OpenerDrop? || step.OpenerStart?
    ensures Balanced(Do(s, step), b)
  {
    if step.OpenerTake? {
      OpenerMoves(s, b, Deciding, s.sh.(tokens := s.sh.tokens - 1));
    } else if step.OpenerDrop? {
      OpenerMoves(s, b, Resting, Count(s.sh, -1));
    } else {
      OpenerMoves(s, b, Opening, s.sh);
    }
  }

  lemma SweepBooks(s: Pool, b: Books, expired: Conn -> bool) returns (b': Books)
    requires Balanced(s, b) && Enabled(s, CleanerSweep(expired)) && s.quitIdx.None?
    ensures Balanced(Do(s, CleanerSweep(expired)), b')
  {
    var r := Sweep(s.sh.free, expired, 0);
    SweepKeeps(s.sh.free, expired, 0);
    assert FreeAreFor(s.sh.free, None, b.free, true);
    b' := b.(free := multiset(r.0));
    assert FreeAre(r.0, None, multiset(r.0));
    var out := multiset(r.1);
    Enter(s, b, Do(s, CleanerSweep(expired)), b', NOTHING.(free := out), NOTHING.(cleaner := out), out, NONE, NONE);
  }

  lemma CleanerQuitBooks(s: Pool, b: Books, ok: bool)
    requires Balanced(s, b) && Enabled(s, CleanerQuit(ok)) && s.sh.maxOpen > 0 && s.sh.numOpen <= s.sh.maxOpen
    ensures Balanced(Do(s, CleanerQuit(ok)), b)
  {
    var one := multiset{s.cleaner[0]};
    assert s.cleaner == [s.cleaner[0]] + s.cleaner[1..];
    AfterQuitCounts(s.sh, ok);
    Enter(s, b, Do(s, CleanerQuit(ok)), b, NOTHING.(cleaner := one), NOTHING, NONE, NONE, one);
  }

  lemma QuitNextBooks(s: Pool, b: Books) returns (b': Books)
    requires Balanced(s, b) && Enabled(s, QuitNext)
    ensures Balanced(Do(s, QuitNext), b')
  {
    var i := s.quitIdx.value;
    assert s.sh.free[i..][1..] == s.sh.free[i + 1..];
    var f, cn := PopFree(s.sh.free, Some(i), b.free, s.sh.free, Some(i + 1));
    b' := b.(free := f);
    var one := multiset{cn};
    Enter(s, b, Do(s, QuitNext), b', NOTHING.(free := one), NOTHING, NONE, NONE, one);
  }

  lemma QuitBeginBooks(s: Pool, b: Books)
    requires Balanced(s, b) && Enabled(s, QuitBegin) && s.quitIdx.None?
    ensures Balanced(Do(s, QuitBegin), b)
  {
    var s' := Do(s, QuitBegin);
    SameChans(s, b, s'.sh.chans);
    assert FreeAreFor(s.sh.free, None, b.free, true);
    assert s.sh.free[0..] == s.sh.free;
    assert FreeAre(s'.sh.free, Some(0), b.free);
    Enter(s, b, s', b, NOTHING, NOTHING, NONE, NONE, NONE);
  }

  lemma QuitEndBooks(s: Pool, b: Books)
    requires Balanced(s, b) && Enabled(s, QuitEnd)
    ensures Balanced(Do(s, QuitEnd), b)
  {
    assert FreeAreFor(s.sh.free, s.quitIdx, b.free, true);
    assert FreeFrom(s.sh.free, s.quitIdx) == [];
    assert b.free == multiset([]);
    assert FreeAre([], None, b.free);
    Enter(s, b, Do(s, QuitEnd), b, NOTHING, NOTHING, NONE, NONE, NONE);
  }

  // ---- the channels, step by step ----

  predicate AwaitsNone(c: Caller) {
    !c.Waiting? && !c.Cancelling? && !c.Draining?
  }

  /** A step of a caller that has nothing to do with channels. */
  lemma ChannelsKept(s: Pool, s': Pool)
    requires ChannelsInOrder(s) && s'.sh.requests == s.sh.requests && s'.sh.chans == s.sh.chans && s'.sh.closed == s.sh.closed
    requires |s'.callers| == |s.callers|
    requires forall p :: 0 <= p < |s.callers| ==>
               s'.callers[p] == s.callers[p] || (AwaitsNone(s.callers[p]) && AwaitsNone(s'.callers[p]))
    ensures ChannelsInOrder(s')
  {
    forall k | k in s.sh.requests ensures RequestInOrder(s', k) {
      assert RequestInOrder(s, k);
    }
    forall k | 0 <= k < |s.sh.chans| ensures FullInOrder(s', k) {
      assert FullInOrder(s, k);
    }
    forall p | 0 <= p < |s.callers| ensures CallerInOrder(s'.sh, p, s'.callers[p]) {
      assert CallerInOrder(s.sh, p, s.callers[p]);
    }
  }

  lemma RequestChannels(s: Pool, p: nat)
    requires Inv(s) && Enabled(s, Request(p))
    ensures ChannelsInOrder(Do(s, Request(p)))
  {
    var s' := Do(s, Request(p));
    var n := |s.sh.chans|;
    forall k | k in s'.sh.requests ensures RequestInOrder(s', k) {
      assert k != n ==> RequestInOrder(s, k);
    }
    forall k | 0 <= k < |s'.sh.chans| ensures FullInOrder(s', k) {
      assert k != n ==> FullInOrder(s, k);
    }
    forall k | k in s.sh.requests ensures k < n {
      assert RequestInOrder(s, k);
    }
    forall q | 0 <= q < |s'.callers| ensures CallerInOrder(s'.sh, q, s'.callers[q]) {
      assert CallerInOrder(s.sh, q, s.callers[q]);
    }
  }

  lemma ReceivedCaller(s: Pool, p: nat, k: nat, q: nat)
    requires ChannelsInOrder(s) && At(s, p) && Awaits(s.callers[p], k) && k < |s.sh.chans| && At(s, q)
    requires k in s.sh.requests ==> s.sh.closed
    ensures var s' := Set(s, p, Received(s.sh.chans[k])).(sh := Emptied(s.sh, k));
            CallerInOrder(s'.sh, q, s'.callers[q])
  {
    assert CallerInOrder(s.sh, p, s.callers[p]) && CallerInOrder(s.sh, q, s.callers[q]);
    if k in s.sh.requests {
      assert RequestInOrder(s, k);
    }
  }

  lemma ReceivedRequest(s: Pool, p: nat, k: nat, j: nat)
    requires ChannelsInOrder(s) && At(s, p) && Awaits(s.callers[p], k) && k < |s.sh.chans| && j in s.sh.requests
    requires k in s.sh.requests ==> s.sh.closed
    ensures RequestInOrder(Set(s, p, Received(s.sh.chans[k])).(sh := Emptied(s.sh, k)), j)
  {
    assert RequestInOrder(s, j) && CallerInOrder(s.sh, p, s.callers[p]);
  }

  /** Taking what there is out of the channel, or finding it empty. */
  lemma ReceiveChannels(s: Pool, p: nat, k: nat, s': Pool)
    requires Inv(s) && At(s, p) && Awaits(s.callers[p], k) && k < |s.sh.chans|
    requires k in s.sh.requests ==> s.sh.closed
    requires s' == Set(s, p, Received(s.sh.chans[k])).(sh := Emptied(s.sh, k))
    ensures ChannelsInOrder(s')
  {
    forall j | j in s'.sh.requests ensures RequestInOrder(s', j) {
      ReceivedRequest(s, p, k, j);
    }
    assert CallerInOrder(s.sh, p, s.callers[p]);
    forall j | 0 <= j < |s'.sh.chans| ensures FullInOrder(s', j) {
      assert FullInOrder(s, j);
    }
    forall q | 0 <= q < |s'.callers| ensures CallerInOrder(s'.sh, q, s'.callers[q]) {
      ReceivedCaller(s, p, k, q);
    }
  }

  lemma CancelChannels(s: Pool, p: nat)
    requires Inv(s) && Enabled(s, Cancel(p))
    ensures ChannelsInOrder(Do(s, Cancel(p)))
  {
    var s' := Do(s, Cancel(p));
    forall k | k in s'.sh.requests ensures RequestInOrder(s', k) {
      assert RequestInOrder(s, k);
    }
    forall k | 0 <= k < |s'.sh.chans| ensures FullInOrder(s', k) {
      assert FullInOrder(s, k);
    }
    forall q | 0 <= q < |s'.callers| ensures CallerInOrder(s'.sh, q, s'.callers[q]) {
      assert CallerInOrder(s.sh, q, s.callers[q]);
    }
  }

  lemma DeleteChannels(s: Pool, p: nat)
    requires Inv(s) && Enabled(s, Delete(p))
    ensures ChannelsInOrder(Do(s, Delete(p)))
  {
    var s' := Do(s, Delete(p));
    assert CallerInOrder(s.sh, p, s.callers[p]);
    forall k | k in s'.sh.requests ensures RequestInOrder(s', k) {
      assert RequestInOrder(s, k);
    }
    forall k | 0 <= k < |s'.sh.chans| ensures FullInOrder(s', k) {
      assert FullInOrder(s, k);
    }
    forall q | 0 <= q < |s'.callers| ensures CallerInOrder(s'.sh, q, s'.callers[q]) {
      assert CallerInOrder(s.sh, q, s.callers[q]);
    }
  }

  /** A connection is put back; `cs` is the callers afterwards. */
  lemma PutChannels(s: Pool, cn: Conn, k: nat, s': Pool)
    requires Inv(s) && CanPick(s.sh, k) && !Refuses(s.sh) && s'.sh == PutLocked(s.sh, cn, k)
    requires |s'.callers| == |s.callers|
    requires forall p :: 0 <= p < |s.callers| ==>
               s'.callers[p] == s.callers[p] || (AwaitsNone(s.callers[p]) && AwaitsNone(s'.callers[p]))
    ensures ChannelsInOrder(s')
  {
    if s.sh.requests == {} {
      ChannelsKept(s, s');
      return;
    }
    assert RequestInOrder(s, k);
    forall j | j in s'.sh.requests ensures RequestInOrder(s', j) {
      assert RequestInOrder(s, j);
    }
    forall j | 0 <= j < |s'.sh.chans| ensures FullInOrder(s', j) {
      assert FullInOrder(s, j);
    }
    forall q | 0 <= q < |s'.callers| ensures CallerInOrder(s'.sh, q, s'.callers[q]) {
      assert CallerInOrder(s.sh, q, s.callers[q]);
    }
  }

  lemma QuitBeginChannels(s: Pool)
    requires Inv(s) && Enabled(s, QuitBegin)
    ensures ChannelsInOrder(Do(s, QuitBegin))
  {
    var s' := Do(s, QuitBegin);
    forall k | k in s'.sh.requests ensures RequestInOrder(s', k) {
      assert RequestInOrder(s, k);
    }
    forall k | 0 <= k < |s'.sh.chans| ensures FullInOrder(s', k) {
      assert FullInOrder(s, k);
    }
    forall q | 0 <= q < |s'.callers| ensures CallerInOrder(s'.sh, q, s'.callers[q]) {
      assert CallerInOrder(s.sh, q, s.callers[q]);
    }
  }

  // ---- every step ----

  /** There is room in the books for what a goroutine has. */
  lemma AtLeast(s: Pool, b: Books)
    requires Balanced(s, b)
    ensures s.sh.tokens + OpenerPending(s.opener) + b.creating + |OpenerConns(s.opener)| + |s.cleaner| <= s.sh.numOpen
    ensures forall p :: 0 <= p < |s.callers| ==>
              s.sh.tokens + |ConnsOf(s.callers[p])| + IsCreating(s.callers[p]) <= s.sh.numOpen
  {
    assert |multiset(s.cleaner)| == |s.cleaner|;
    assert |Total(s, b)| == |b.free| + |b.chans| + |b.callers| + |OpenerConns(s.opener)| + |multiset(s.cleaner)|;
    forall p | 0 <= p < |s.callers|
      ensures |ConnsOf(s.callers[p])| <= |b.callers| && IsCreating(s.callers[p]) <= b.creating
    {
      var m, n := SetCaller(s, b, p, Idle);
      assert |m + ConnsOf(s.callers[p])| == |m| + |ConnsOf(s.callers[p])|;
      assert |b.callers + ConnsOf(Idle)| == |b.callers|;
    }
  }

  predicate BoundsKept(s': Pool) {
    s'.sh.numOpen <= s'.sh.maxOpen && !s'.sh.broken && NeverBlocks(s'.sh)
  }

  /** Steps after which new connections may be opened. */
  predicate MayOpen(step: Step) {
    step.CreateFailed? || step.FinishQuit? || step.OpenerFailed? || step.OpenerQuit? || step.CleanerQuit?
  }

  lemma OpenedWithin(sh: Shared, sh': Shared)
    requires sh.maxOpen > 0 && sh.tokens < sh.numOpen <= sh.maxOpen && !sh.broken && NeverBlocks(sh)
    requires sh' == MaybeOpen(Count(sh, -1)) || sh' == Count(sh, -1)
    ensures sh'.numOpen <= sh'.maxOpen && !sh'.broken && NeverBlocks(sh')
  {
    MaybeOpenCounts(Count(sh, -1));
  }

  lemma OpeningShared(s: Pool, step: Step)
    requires Enabled(s, step) && MayOpen(step)
    ensures Do(s, step).sh == MaybeOpen(Count(s.sh, -1)) || Do(s, step).sh == Count(s.sh, -1)
  {
  }

  /** Whoever gives something up is counted. */
  lemma HasRoom(s: Pool, b: Books, step: Step)
    requires Balanced(s, b) && Enabled(s, step) && MayOpen(step)
    ensures s.sh.tokens < s.sh.numOpen
  {
    AtLeast(s, b);
    if step.CreateFailed? || step.FinishQuit? {
      assert |ConnsOf(s.callers[step.p])| + IsCreating(s.callers[step.p]) >= 1;
    }
  }

  lemma OpeningBounds(s: Pool, b: Books, step: Step)
    requires Inv(s) && Balanced(s, b) && Enabled(s, step) && MayOpen(step)
    ensures BoundsKept(Do(s, step))
  {
    HasRoom(s, b, step);
    OpeningShared(s, step);
    OpenedWithin(s.sh, Do(s, step).sh);
  }

  lemma OtherBounds(s: Pool, step: Step)
    requires Inv(s) && Enabled(s, step) && !MayOpen(step) && !step.Put? && !step.OpenerPut?
    ensures BoundsKept(Do(s, step))
  {
  }

  lemma StepBounds(s: Pool, b: Books, step: Step)
    requires Inv(s) && Balanced(s, b) && Enabled(s, step)
    ensures BoundsKept(Do(s, step))
  {
    if MayOpen(step) {
      OpeningBounds(s, b, step);
    } else if step.Put? {
      PutBounds(s, s.callers[step.p].cn, step.k);
    } else if step.OpenerPut? {
      PutBounds(s, s.opener.cn, step.k);
    } else {
      OtherBounds(s, step);
    }
  }

  /** The request that is satisfied has an open and empty channel. */
  lemma PutBounds(s: Pool, cn: Conn, k: nat)
    requires Inv(s) && CanPick(s.sh, k)
    ensures !Refuses(s.sh) ==>
              !PutLocked(s.sh, cn, k).broken && NeverBlocks(PutLocked(s.sh, cn, k)) && (s.sh.requests != {} ==> s.sh.chans[k].buf.None?)
    ensures PutLocked(s.sh, cn, k).numOpen == s.sh.numOpen && PutLocked(s.sh, cn, k).maxOpen == s.sh.maxOpen
  {
    if s.sh.requests != {} {
      assert RequestInOrder(s, k);
    }
  }

  lemma CreateBooks(s: Pool, b: Books, p: nat) returns (b': Books)
    requires Balanced(s, b) && Enabled(s, Create(p))
    ensures Balanced(Do(s, Create(p)), b')
  {
    b' := CallerBooks(s, b, p, Creating, Count(s.sh, 1));
  }

  lemma GiveUpBooks(s: Pool, b: Books, p: nat) returns (b': Books)
    requires Balanced(s, b) && Enabled(s, GiveUp(p))
    ensures Balanced(Set(s, p, Quitting(s.callers[p].cn)), b')
  {
    b' := CallerBooks(s, b, p, Quitting(s.callers[p].cn), s.sh);
  }

  lemma CancelBooks(s: Pool, b: Books, p: nat) returns (b': Books)
    requires Balanced(s, b) && Enabled(s, Cancel(p))
    ensures Balanced(Do(s, Cancel(p)), b')
  {
    b' := CallerBooks(s, b, p, Cancelling(s.callers[p].k), s.sh);
  }

  lemma DeleteBooks(s: Pool, b: Books, p: nat) returns (b': Books)
    requires Balanced(s, b) && Enabled(s, Delete(p))
    ensures Balanced(Do(s, Delete(p)), b')
  {
    var k := s.callers[p].k;
    b' := CallerBooks(s, b, p, Draining(k), s.sh.(requests := s.sh.requests - {k}));
  }

  lemma CallerStepBooks(s: Pool, b: Books, step: Step) returns (b': Books)
    requires Balanced(s, b) && Enabled(s, step)
    requires step.Create? || step.Cancel? || step.Delete? || step.GiveUp? || (step.Put? && Refuses(s.sh))
    ensures Balanced(Do(s, step), b')
  {
    if step.Create? {
      b' := CreateBooks(s, b, step.p);
    } else if step.Cancel? {
      b' := CancelBooks(s, b, step.p);
    } else if step.Delete? {
      b' := DeleteBooks(s, b, step.p);
    } else {
      b' := GiveUpBooks(s, b, step.p);
    }
  }

  lemma CreateFailedBooks(s: Pool, b: Books, p: nat) returns (b': Books)
    requires Balanced(s, b) && Enabled(s, CreateFailed(p)) && s.sh.maxOpen > 0 && s.sh.numOpen <= s.sh.maxOpen
    ensures Balanced(Do(s, CreateFailed(p)), b')
  {
    MaybeOpenCounts(Count(s.sh, -1));
    b' := CallerBooks(s, b, p, Idle, MaybeOpen(Count(s.sh, -1)));
  }

  lemma RequestBooks(s: Pool, b: Books, p: nat) returns (b': Books)
    requires Balanced(s, b) && Enabled(s, Request(p))
    ensures Balanced(Do(s, Request(p)), b')
  {
    AddChan(s, b, Chan(None, false, p));
    b' := CallerBooks(s, b, p, Waiting(|s.sh.chans|), NewRequest(s.sh, p));
  }

  predicate OfAnyCaller(step: Step) {
    step.TakeFree? || step.Request? || step.Create? || step.Created? || step.CreateFailed? || step.Receive? || step.Cancel?
    || step.Delete? || step.Drain? || step.Put? || step.GiveUp? || step.FinishQuit?
  }

  lemma CallersBooks(s: Pool, b: Books, step: Step) returns (b': Books)
    requires Inv(s) && Balanced(s, b) && Enabled(s, step) && OfAnyCaller(step)
    ensures Balanced(Do(s, step), b')
  {
    if step.TakeFree? {
      b' := TakeFreeBooks(s, b, step.p);
    } else if step.Request? {
      b' := RequestBooks(s, b, step.p);
    } else if step.Created? {
      b' := CreatedBooks(s, b, step.p);
    } else if step.CreateFailed? {
      b' := CreateFailedBooks(s, b, step.p);
    } else if step.Receive? || step.Drain? {
      b' := ReceiveBooks(s, b, step.p, s.callers[step.p].k);
    } else if step.FinishQuit? {
      b' := FinishQuitBooks(s, b, step.p, step.ok);
    } else if step.Put? && !Refuses(s.sh) {
      PutBounds(s, s.callers[step.p].cn, step.k);
      b' := CallerPutBooks(s, b, step.p, step.k);
    } else {
      b' := CallerStepBooks(s, b, step);
    }
  }

  lemma StepBooks(s: Pool, b: Books, step: Step) returns (b': Books)
    requires Inv(s) && Balanced(s, b) && Enabled(s, step)
    ensures Balanced(Do(s, step), b')
  {
    b' := b;
    if OfAnyCaller(step) {
      b' := CallersBooks(s, b, step);
    } else if step.CleanerSweep? {
      b' := SweepBooks(s, b, step.expired);
    } else if step.CleanerQuit? {
      CleanerQuitBooks(s, b, step.ok);
    } else if step.QuitBegin? {
      QuitBeginBooks(s, b);
    } else if step.QuitNext? {
      b' := QuitNextBooks(s, b);
    } else if step.QuitEnd? {
      QuitEndBooks(s, b);
    } else if step.OpenerCreated? {
      OpenerCreatedBooks(s, b);
    } else if step.OpenerQuit? {
      OpenerQuitBooks(s, b, step.ok);
    } else if step.OpenerPut? && !Refuses(s.sh) {
      PutBounds(s, s.opener.cn, step.k);
      b' := OpenerPutBooks(s, b, step.k);
    } else if step.OpenerPut? {
      OpenerRefusedBooks(s, b, step.k);
    } else if step.OpenerFailed? {
      OpenerFailedBooks(s, b);
    } else {
      OpenerBooks(s, b, step);
    }
  }

  /** Steps that leave channels, requests and waiting callers alone. */
  predicate KeepsChannels(step: Step) {
    !step.Request? && !step.Receive? && !step.Drain? && !step.Cancel? && !step.Delete? && !step.Put? && !step.OpenerPut?
    && !step.QuitBegin?
  }

  predicate OfCaller(step: Step) {
    step.TakeFree? || step.Create? || step.Created? || step.CreateFailed? || step.GiveUp? || step.FinishQuit?
  }

  predicate SharedKept(sh: Shared, sh': Shared) {
    sh'.requests == sh.requests && sh'.chans == sh.chans && sh'.closed == sh.closed && sh'.maxOpen == sh.maxOpen
  }

  lemma OtherShared(s: Pool, step: Step)
    requires Enabled(s, step) && KeepsChannels(step)
    ensures SharedKept(s.sh, Do(s, step).sh)
  {
    if OfAnyCaller(step) {
      OtherCallerShared(s, step);
    }
  }

  lemma OtherCallerShared(s: Pool, step: Step)
    requires Enabled(s, step) && KeepsChannels(step) && OfAnyCaller(step)
    ensures SharedKept(s.sh, Do(s, step).sh)
  {
  }

  lemma OtherCallers(s: Pool, step: Step)
    requires Enabled(s, step) && KeepsChannels(step)
    ensures var s' := Do(s, step);
            if OfCaller(step) then
              s'.callers == s.callers[step.p := s'.callers[step.p]] && AwaitsNone(s.callers[step.p]) && AwaitsNone(s'.callers[step.p])
            else s'.callers == s.callers
  {
  }

  lemma OtherChannels(s: Pool, step: Step)
    requires Inv(s) && Enabled(s, step) && KeepsChannels(step)
    ensures ChannelsInOrder(Do(s, step))
  {
    var s' := Do(s, step);
    OtherShared(s, step);
    OtherCallers(s, step);
    ChannelsKept(s, s');
  }

  lemma PutStepChannels(s: Pool, p: nat, k: nat)
    requires Inv(s) && Enabled(s, Put(p, k))
    ensures ChannelsInOrder(Do(s, Put(p, k)))
  {
    var s' := Do(s, Put(p, k));
    if Refuses(s.sh) {
      ChannelsKept(s, s');
    } else {
      PutChannels(s, s.callers[p].cn, k, s');
    }
  }

  lemma OpenerPutChannels(s: Pool, k: nat)
    requires Inv(s) && Enabled(s, OpenerPut(k))
    ensures ChannelsInOrder(Do(s, OpenerPut(k)))
  {
    var s' := Do(s, OpenerPut(k));
    if Refuses(s.sh) {
      ChannelsKept(s, s');
    } else {
      PutChannels(s, s.opener.cn, k, s');
    }
  }

  lemma ReceiveStepChannels(s: Pool, step: Step)
    requires Inv(s) && Enabled(s, step) && (step.Receive? || step.Drain?)
    ensures ChannelsInOrder(Do(s, step))
  {
    var p := step.p;
    var k := s.callers[p].k;
    assert CallerInOrder(s.sh, p, s.callers[p]);
    ClosedRequest(s, k);
    ReceiveChannels(s, p, k, Do(s, step));
  }

  lemma MaxOpenStays(s: Pool, step: Step)
    requires Enabled(s, step)
    ensures Do(s, step).sh.maxOpen == s.sh.maxOpen
  {
    if MayOpen(step) {
      OpeningShared(s, step);
    } else if OfAnyCaller(step) {
      MaxOpenOfCaller(s, step);
    }
  }

  lemma MaxOpenOfCaller(s: Pool, step: Step)
    requires Enabled(s, step) && OfAnyCaller(step) && !MayOpen(step)
    ensures Do(s, step).sh.maxOpen == s.sh.maxOpen
  {
  }

  lemma StepChannels(s: Pool, step: Step)
    requires Inv(s) && Enabled(s, step)
    ensures ChannelsInOrder(Do(s, step))
  {
    if step.Request? {
      RequestChannels(s, step.p);
    } else if step.Receive? || step.Drain? {
      ReceiveStepChannels(s, step);
    } else if step.Cancel? {
      CancelChannels(s, step.p);
    } else if step.Delete? {
      DeleteChannels(s, step.p);
    } else if step.Put? {
      PutStepChannels(s, step.p, step.k);
    } else if step.OpenerPut? {
      OpenerPutChannels(s, step.k);
    } else if step.QuitBegin? {
      QuitBeginChannels(s);
    } else {
      OtherChannels(s, step);
    }
  }

  lemma ClosedRequest(s: Pool, k: nat)
    requires Inv(s) && k < |s.sh.chans|
    ensures k in s.sh.requests ==> s.sh.chans[k].buf.None? && s.sh.chans[k].closed == s.sh.closed
  {
    if k in s.sh.requests {
      assert RequestInOrder(s, k);
    }
  }

  /** What `Quit` goes through does not change. */
  predicate QuitKept(s: Pool, s': Pool) {
    s'.sh.free == s.sh.free && s'.sh.closed == s.sh.closed && s'.quitIdx == s.quitIdx
  }

  lemma OpenedQuit(s: Pool, step: Step)
    requires Enabled(s, step) && MayOpen(step)
    ensures QuitKept(s, Do(s, step))
  {
  }

  lemma CallerQuit(s: Pool, step: Step)
    requires Enabled(s, step) && OfAnyCaller(step) && !MayOpen(step) && !step.Put? && !step.TakeFree?
    ensures QuitKept(s, Do(s, step))
  {
  }

  lemma CallerStepQuit(s: Pool, step: Step)
    requires Inv(s) && Enabled(s, step) && OfAnyCaller(step) && !MayOpen(step)
    ensures QuitInOrder(Do(s, step))
  {
    if step.Put? {
      PutQuit(s, s.callers[step.p].cn, step.k);
    } else if !step.TakeFree? {
      CallerQuit(s, step);
    }
  }

  lemma PutQuit(s: Pool, cn: Conn, k: nat)
    requires CanPick(s.sh, k)
    ensures PutLocked(s.sh, cn, k).closed == s.sh.closed && (s.sh.closed ==> PutLocked(s.sh, cn, k) == s.sh)
  {
  }

  lemma OpenerQuitKept(s: Pool, step: Step)
    requires Enabled(s, step) && (step.OpenerTake? || step.OpenerDrop? || step.OpenerStart? || step.OpenerCreated?)
    ensures QuitKept(s, Do(s, step))
  {
  }

  lemma OtherStepQuit(s: Pool, step: Step)
    requires Inv(s) && Enabled(s, step) && !OfAnyCaller(step) && !MayOpen(step)
    ensures QuitInOrder(Do(s, step))
  {
    if step.OpenerPut? {
      PutQuit(s, s.opener.cn, step.k);
    } else if step.OpenerTake? || step.OpenerDrop? || step.OpenerStart? || step.OpenerCreated? {
      OpenerQuitKept(s, step);
    }
  }

  lemma StepQuit(s: Pool, step: Step)
    requires Inv(s) && Enabled(s, step)
    ensures QuitInOrder(Do(s, step))
  {
    if MayOpen(step) {
      OpenedQuit(s, step);
    } else if OfAnyCaller(step) {
      CallerStepQuit(s, step);
    } else {
      OtherStepQuit(s, step);
    }
  }

  /** Every step of every goroutine keeps the invariant. */
  lemma StepInv(s: Pool, step: Step)
    requires Inv(s) && Enabled(s, step)
    ensures Inv(Do(s, step)) && Do(s, step).sh.maxOpen == s.sh.maxOpen
  {
    var b := KeepBooks(s);
    var b' := StepBooks(s, b, step);
    OpenBooks(Do(s, step), b');
    StepBounds(s, b, step);
    StepChannels(s, step);
    StepQuit(s, step);
    MaxOpenStays(s, step);
  }

  // ---- what a connection that is put back is used for ----

  /** `cn` is sent to the request `k`, whose channel was open and empty; nothing else is
      different. */
  predicate HandedTo(sh: Shared, sh': Shared, cn: Conn, k: nat) {
    && k in sh.requests && k < |sh.chans| && !sh.chans[k].closed && sh.chans[k].buf.None?
    && sh' == sh.(requests := sh.requests - {k}, chans := sh.chans[k := Chan(Some(cn), false, sh.chans[k].waiter)])
  }

  /** An open pool accepts every connection that is put back, also when it is full: it goes
      to the request picked, if there is one, else to the end of the free list. */
  lemma PutAccepted(s: Pool, p: nat, k: nat)
    requires Inv(s) && Enabled(s, Put(p, k)) && !s.sh.closed
    ensures var s', cn := Do(s, Put(p, k)), s.callers[p].cn;
            && s' == s.(callers := s.callers[p := Idle], sh := s'.sh)
            && if s.sh.requests == {} then s'.sh == s.sh.(free := s.sh.free + [cn])
               else HandedTo(s.sh, s'.sh, cn, k) && IsWaiter(s', k)
  {
    PutGives(s, s.callers[p].cn, k);
  }

  /** What `putConnLocked` does to an open pool. */
  lemma PutGives(s: Pool, cn: Conn, k: nat)
    requires Inv(s) && CanPick(s.sh, k) && !s.sh.closed
    ensures !Refuses(s.sh)
    ensures s.sh.requests == {} ==> PutLocked(s.sh, cn, k) == s.sh.(free := s.sh.free + [cn])
    ensures s.sh.requests != {} ==> HandedTo(s.sh, PutLocked(s.sh, cn, k), cn, k) && IsWaiter(s, k)
  {
    if s.sh.requests != {} {
      assert RequestInOrder(s, k);
    }
  }

  /** So it is with a connection the opener has opened. */
  lemma OpenerPutAccepted(s: Pool, k: nat)
    requires Inv(s) && Enabled(s, OpenerPut(k)) && !s.sh.closed
    ensures var s', cn := Do(s, OpenerPut(k)), s.opener.cn;
            && s' == s.(opener := Resting, sh := s'.sh)
            && if s.sh.requests == {} then s'.sh == s.sh.(free := s.sh.free + [cn])
               else HandedTo(s.sh, s'.sh, cn, k) && IsWaiter(s', k)
  {
    PutGives(s, s.opener.cn, k);
  }

  /** A closed pool accepts none, and whoever has it must quit it. */
  lemma PutRefused(s: Pool, step: Step)
    requires Enabled(s, step) && s.sh.closed
    ensures step.Put? ==> Do(s, step) == s.(callers := s.callers[step.p := Quitting(s.callers[step.p].cn)])
    ensures step.OpenerPut? ==> Do(s, step) == s.(opener := Discarding(s.opener.cn))
  {
  }

  /** A caller that puts a connection back hands it to the goroutine that waits for the
      request picked, which has it after receiving from its channel. */
  lemma HandedOver(s: Pool, p: nat, k: nat)
    requires Inv(s) && Enabled(s, Put(p, k)) && !s.sh.closed && s.sh.requests != {}
    ensures var s', w := Do(s, Put(p, k)), s.sh.chans[k].waiter;
            && At(s', w) && w != p && Awaits(s'.callers[w], k)
            && (s'.callers[w].Waiting? ==>
                  Enabled(s', Receive(w)) && Do(s', Receive(w)).callers[w] == Holding(s.callers[p].cn))
  {
    PutAccepted(s, p, k);
    assert RequestInOrder(s, k);
  }

  // ---- how many connections the opener is asked for ----

  /** `n` more tokens: one for each request, or as many as `maxOpen` leaves room for. */
  predicate AsManyAsAllowed(sh: Shared, sh': Shared, n: int) {
    && sh'.tokens == sh.tokens + n && sh'.numOpen == sh.numOpen + n && 0 <= n <= |sh.requests|
    && (sh.maxOpen == 0 ==> n == |sh.requests|)
    && (sh.maxOpen > 0 && n > 0 ==> sh'.numOpen <= sh.maxOpen)
    && (sh.maxOpen > 0 && n < |sh.requests| ==> sh'.numOpen >= sh.maxOpen)
  }

  /** `sh` without one connection and, if `opens`, with new ones asked for. */
  predicate Replaced(sh: Shared, sh': Shared, opens: bool) {
    && sh' == sh.(numOpen := sh'.numOpen, tokens := sh'.tokens, broken := sh'.broken, blocked := sh'.blocked)
    && if opens && !sh.closed then AsManyAsAllowed(sh.(numOpen := sh.numOpen - 1), sh', sh'.tokens - sh.tokens)
       else sh'.numOpen == sh.numOpen - 1 && sh'.tokens == sh.tokens
  }

  /** Whether the end of a connection, or of the attempt to open one, lets new ones be opened:
      always when opening failed, and when quitting it succeeded. */
  predicate Reopens(step: Step) {
    match step
    case FinishQuit(_, ok) => ok
    case OpenerQuit(ok) => ok
    case CleanerQuit(ok) => ok
    case _ => true
  }

  /** After each of these steps, in an open pool, no request is left without a connection
      being opened for it unless `maxOpen` is reached; if quitting the connection failed,
      or the pool is closed, none is opened.  For every state, reachable or not. */
  lemma OpensAsManyAsAllowed(s: Pool, step: Step)
    requires Enabled(s, step) && MayOpen(step)
    ensures Replaced(s.sh, Do(s, step).sh, Reopens(step))
  {
  }

  // ---- runs ----

  predicate IsRun(s: Pool, steps: seq<Step>)
    decreases |steps|
  {
    steps == [] || (Enabled(s, steps[0]) && IsRun(Do(s, steps[0]), steps[1..]))
  }

  function After(s: Pool, steps: seq<Step>): Pool
    requires IsRun(s, steps)
    decreases |steps|
  {
    if steps == [] then s else After(Do(s, steps[0]), steps[1..])
  }

  lemma {:induction false} IdleCallers(n: nat)
    ensures CallerConns(seq(n, _ => Idle)) == NONE && CallersCreating(seq(n, _ => Idle)) == 0
  {
    if n > 0 {
      assert seq(n, _ => Idle)[..n - 1] == seq(n - 1, _ => Idle);
      IdleCallers(n - 1);
    }
  }

  lemma StartInv(maxOpen: nat, n: nat)
    requires maxOpen > 0
    ensures Inv(Start(maxOpen, n))
  {
    IdleCallers(n);
    assert Owned(Start(maxOpen, n)) == NONE;
  }

  /** Safety of every interleaving: any number of goroutines, any `maxOpen` but zero. */
  lemma {:induction false} RunInv(s: Pool, steps: seq<Step>)
    requires Inv(s) && IsRun(s, steps)
    ensures Inv(After(s, steps)) && After(s, steps).sh.maxOpen == s.sh.maxOpen
    decreases |steps|
  {
    if steps != [] {
      StepInv(s, steps[0]);
      RunInv(Do(s, steps[0]), steps[1..]);
    }
  }

  lemma PoolSafety(maxOpen: nat, n: nat, steps: seq<Step>)
    requires 0 < maxOpen && IsRun(Start(maxOpen, n), steps)
    ensures var s := After(Start(maxOpen, n), steps);
            && s.sh.numOpen == s.sh.tokens + OpenerPending(s.opener) + CallersCreating(s.callers) + |Owned(s)|
            && s.sh.numOpen <= maxOpen
            && Owned(s) + s.dead == AllConns(s.created)
            && !s.sh.broken
            && (maxOpen <= 1000000 ==> !s.sh.blocked)
  {
    StartInv(maxOpen, n);
    RunInv(Start(maxOpen, n), steps);
  }

  // ---- when the opener channel is too small ----

  lemma {:induction false} RunMore(s: Pool, steps: seq<Step>, step: Step)
    requires IsRun(s, steps) && Enabled(After(s, steps), step)
    ensures IsRun(s, steps + [step]) && After(s, steps + [step]) == Do(After(s, steps), step)
    decreases |steps|
  {
    if steps == [] {
      assert [step][1..] == [];
    } else {
      RunMore(Do(s, steps[0]), steps[1..], step);
      assert (steps + [step])[1..] == steps[1..] + [step];
    }
  }

  /** `m` callers that open connections, of which `i` have begun, and `m` idle ones. */
  predicate Began(s: Pool, m: nat, i: nat) {
    && |s.callers| == 2 * m && i <= m && s.sh.maxOpen == m && !s.sh.closed
    && s.sh.numOpen == i && s.sh.tokens == 0 && s.sh.requests == {}
    && (forall p :: 0 <= p < i ==> s.callers[p].Creating?) && (forall p :: i <= p < 2 * m ==> s.callers[p].Idle?)
  }

  /** All of the former have begun, and `i` of the latter have made a request. */
  predicate Asked(s: Pool, m: nat, i: nat) {
    && |s.callers| == 2 * m && i <= m && s.sh.maxOpen == m && !s.sh.closed
    && s.sh.numOpen == m && s.sh.tokens == 0 && |s.sh.requests| == i && (forall k :: k in s.sh.requests ==> k < |s.sh.chans|)
    && (forall p :: 0 <= p < m ==> s.callers[p].Creating?) && (forall p :: m + i <= p < 2 * m ==> s.callers[p].Idle?)
  }

  /** All of these have, and `i` of the former have failed; each failure sent a token. */
  predicate Failed(s: Pool, m: nat, i: nat) {
    && |s.callers| == 2 * m && i <= m && s.sh.maxOpen == m && !s.sh.closed
    && s.sh.numOpen == m && s.sh.tokens == i && |s.sh.requests| == m
    && (forall p :: i <= p < m ==> s.callers[p].Creating?) && (i > QUEUE_SIZE ==> s.sh.blocked)
  }

  lemma BeginNext(s: Pool, m: nat, i: nat)
    requires Began(s, m, i) && i < m
    ensures Enabled(s, Create(i)) && Began(Do(s, Create(i)), m, i + 1)
  {
  }

  lemma AskNext(s: Pool, m: nat, i: nat)
    requires Asked(s, m, i) && i < m
    ensures Enabled(s, Request(m + i)) && Asked(Do(s, Request(m + i)), m, i + 1)
  {
    assert |s.sh.chans| !in s.sh.requests;
  }

  lemma FailNext(s: Pool, m: nat, i: nat)
    requires Failed(s, m, i) && i < m
    ensures Enabled(s, CreateFailed(i)) && Failed(Do(s, CreateFailed(i)), m, i + 1)
  {
    assert CanOpen(Count(s.sh, -1)) == 1;
  }

  /** Twice as many callers as connections are allowed: the first half fails to open one
      each, while the others wait, before the opener takes a token. */
  lemma BlockingRun(m: nat) returns (steps: seq<Step>)
    requires m > QUEUE_SIZE
    ensures IsRun(Start(m, 2 * m), steps) && After(Start(m, 2 * m), steps).sh.blocked
  {
    var s := Start(m, 2 * m);
    steps := [];
    for i := 0 to m
      invariant IsRun(s, steps) && Began(After(s, steps), m, i)
    {
      BeginNext(After(s, steps), m, i);
      RunMore(s, steps, Create(i));
      steps := steps + [Create(i)];
    }
    assert Asked(After(s, steps), m, 0);
    for i := 0 to m
      invariant IsRun(s, steps) && Asked(After(s, steps), m, i)
    {
      AskNext(After(s, steps), m, i);
      RunMore(s, steps, Request(m + i));
      steps := steps + [Request(m + i)];
    }
    assert Failed(After(s, steps), m, 0);
    for i := 0 to m
      invariant IsRun(s, steps) && Failed(After(s, steps), m, i)
    {
      FailNext(After(s, steps), m, i);
      RunMore(s, steps, CreateFailed(i));
      steps := steps + [CreateFailed(i)];
    }
  }

  /** A sender of the opener channel has to wait in some run. */
  ghost predicate MayBlock(maxOpen: nat) {
    exists n: nat, steps: seq<Step> :: IsRun(Start(maxOpen, n), steps) && After(Start(maxOpen, n), steps).sh.blocked
  }

  /** Exactly when more connections are allowed than the channel has room for tokens. */
  lemma MayBlockIff(maxOpen: nat)
    requires maxOpen > 0
    ensures MayBlock(maxOpen) <==> maxOpen > 1000000
  {
    if maxOpen > QUEUE_SIZE {
      var steps := BlockingRun(maxOpen);
    } else {
      forall n: nat, steps: seq<Step> | IsRun(Start(maxOpen, n), steps)
        ensures !After(Start(maxOpen, n), steps).sh.blocked
      {
        PoolSafety(maxOpen, n, steps);
      }
    }
  }

  // ---- whether requests are served ----

  /** The connections on the way to the requests: those the opener is asked for, and the one
      it is at work on. */
  function Coming(s: Pool): nat {
    s.sh.tokens + AtWork(s.opener)
  }

  function AtWork(o: Opener): nat {
    if o.Deciding? || o.Opening? || o.Opened? then 1 else 0
  }

  predicate EnoughComing(s: Pool) {
    s.sh.closed || Coming(s) >= |s.sh.requests|
  }

  /** No request of an open pool waits for nothing: as many connections are open as may be,
      or one is coming for each request. */
  predicate Served(s: Pool) {
    s.sh.numOpen >= s.sh.maxOpen || EnoughComing(s)
  }

  predicate FailedQuit(step: Step) {
    MayOpen(step) && !Reopens(step)
  }

  lemma ReplacedEnough(sh: Shared, sh': Shared, opens: bool, c: nat)
    requires Replaced(sh, sh', opens) && 0 < sh.maxOpen && sh.numOpen <= sh.maxOpen
    ensures opens ==> sh'.closed || sh'.numOpen >= sh'.maxOpen || sh'.tokens + c >= |sh'.requests|
    ensures !opens ==> sh'.numOpen < sh'.maxOpen && sh'.tokens == sh.tokens
    ensures sh'.requests == sh.requests && sh'.closed == sh.closed
  {
  }

  lemma FailedQuitOpener(s: Pool, step: Step)
    requires Enabled(s, step) && FailedQuit(step)
    ensures AtWork(Do(s, step).opener) == AtWork(s.opener)
  {
  }

  lemma ReplacedServed(s: Pool, step: Step)
    requires Inv(s) && Enabled(s, step) && MayOpen(step)
    ensures Served(Do(s, step)) <==> !FailedQuit(step) || EnoughComing(s)
  {
    var s' := Do(s, step);
    OpensAsManyAsAllowed(s, step);
    ReplacedEnough(s.sh, s'.sh, Reopens(step), AtWork(s'.opener));
    if FailedQuit(step) {
      FailedQuitOpener(s, step);
    }
  }

  lemma PutServed(s: Pool, step: Step)
    requires Inv(s) && Served(s) && Enabled(s, step) && (step.Put? || step.OpenerPut?)
    ensures Served(Do(s, step))
  {
    if s.sh.closed {
      PutRefused(s, step);
    } else if step.Put? {
      PutAccepted(s, step.p, step.k);
    } else {
      OpenerPutAccepted(s, step.k);
    }
  }

  lemma OpenerServed(s: Pool, step: Step)
    requires Served(s) && Enabled(s, step)
    requires step.OpenerTake? || step.OpenerDrop? || step.OpenerStart? || step.OpenerCreated?
    ensures Served(Do(s, step))
  {
  }

  lemma CallerServed(s: Pool, step: Step)
    requires Served(s) && Enabled(s, step) && OfAnyCaller(step) && !MayOpen(step) && !step.Put?
    ensures Served(Do(s, step))
  {
    if step.Delete? {
      FewerRequests(s.sh.requests, s.callers[step.p].k);
    }
  }

  lemma FewerRequests(requests: set<nat>, k: nat)
    ensures |requests - {k}| <= |requests|
  {
  }

  lemma OtherServed(s: Pool, step: Step)
    requires QuitInOrder(s) && Served(s) && Enabled(s, step) && !MayOpen(step) && !step.Put? && !step.OpenerPut?
    ensures Served(Do(s, step))
  {
    if step.OpenerTake? || step.OpenerDrop? || step.OpenerStart? || step.OpenerCreated? {
      OpenerServed(s, step);
    } else if OfAnyCaller(step) {
      CallerServed(s, step);
    } else {
      CleanerServed(s, step);
    }
  }

  lemma CleanerServed(s: Pool, step: Step)
    requires QuitInOrder(s) && Served(s) && Enabled(s, step)
    requires step.CleanerSweep? || step.QuitBegin? || step.QuitNext? || step.QuitEnd?
    ensures Served(Do(s, step))
  {
  }

  /** Every step keeps this, except one: quitting a connection fails when fewer connections
      are coming than there are requests. */
  lemma ServedIff(s: Pool, step: Step)
    requires Inv(s) && Served(s) && Enabled(s, step)
    ensures Served(Do(s, step)) <==> !FailedQuit(step) || EnoughComing(s)
  {
    if MayOpen(step) {
      ReplacedServed(s, step);
    } else if step.Put? || step.OpenerPut? {
      PutServed(s, step);
    } else {
      OtherServed(s, step);
    }
  }

  predicate NoFailedQuit(steps: seq<Step>) {
    forall i :: 0 <= i < |steps| ==> !FailedQuit(steps[i])
  }

  lemma NoFailedFirst(steps: seq<Step>)
    requires steps != [] && NoFailedQuit(steps)
    ensures !FailedQuit(steps[0]) && NoFailedQuit(steps[1..])
  {
    var rest := steps[1..];
    forall i | 0 <= i < |rest| ensures !FailedQuit(rest[i]) {
      assert rest[i] == steps[i + 1];
    }
  }

  ghost predicate Serving(s: Pool) {
    forall t: bool :: ServingFor(s, t)
  }

  ghost predicate ServingFor(s: Pool, t: bool) {
    Inv(s) && Served(s)
  }

  lemma ServingStep(s: Pool, step: Step)
    requires Serving(s) && Enabled(s, step) && !FailedQuit(step)
    ensures Serving(Do(s, step))
  {
    assert ServingFor(s, true);
    ServedIff(s, step);
    StepInv(s, step);
  }

  lemma {:induction false} RunServing(s: Pool, steps: seq<Step>)
    requires Serving(s) && IsRun(s, steps) && NoFailedQuit(steps)
    ensures Serving(After(s, steps))
    decreases |steps|
  {
    if steps != [] {
      NoFailedFirst(steps);
      ServingStep(s, steps[0]);
      RunServing(Do(s, steps[0]), steps[1..]);
    }
  }

  /** So it holds in every run in which no attempt to quit a connection fails. */
  lemma RunServed(maxOpen: nat, n: nat, steps: seq<Step>)
    requires maxOpen > 0 && IsRun(Start(maxOpen, n), steps) && NoFailedQuit(steps)
    ensures Served(After(Start(maxOpen, n), steps))
  {
    StartInv(maxOpen, n);
    RunServing(Start(maxOpen, n), steps);
    assert ServingFor(After(Start(maxOpen, n), steps), true);
  }

  /** `s'` is `s` after `step`, sealed against unfolding. */
  ghost predicate Takes(s: Pool, step: Step, s': Pool) {
    forall t: bool :: TakesFor(s, step, s', t)
  }

  ghost predicate TakesFor(s: Pool, step: Step, s': Pool, t: bool) {
    Enabled(s, step) && s' == Do(s, step)
  }

  /** The run `steps` leads from `s` to `s'`, sealed likewise. */
  ghost predicate Leads(s: Pool, steps: seq<Step>, s': Pool) {
    forall t: bool :: LeadsFor(s, steps, s', t)
  }

  ghost predicate LeadsFor(s: Pool, steps: seq<Step>, s': Pool, t: bool) {
    IsRun(s, steps) && After(s, steps) == s'
  }

  lemma LeadsOn(s: Pool, steps: seq<Step>, i: nat, at: Pool, s': Pool)
    requires i < |steps| && Leads(s, steps[..i], at) && Takes(at, steps[i], s')
    ensures Leads(s, steps[..i + 1], s')
  {
    assert LeadsFor(s, steps[..i], at, true) && TakesFor(at, steps[i], s', true);
    assert steps[..i + 1] == steps[..i] + [steps[i]];
    RunMore(s, steps[..i], steps[i]);
  }

  lemma LeadsFirst(s: Pool, steps: seq<Step>)
    ensures Leads(s, steps[..0], s)
  {
  }

  /** One of two callers has a request, and nothing is open. */
  const STRANDED := Pool(Shared([], {0}, [Chan(None, false, 1)], 0, 0, false, false, false, 1),
                         [Idle, Waiting(0)], Resting, [], None, 1, multiset{0})

  lemma StrandedSteps(step: Step)
    ensures Enabled(STRANDED, step) ==> step == Create(0) || step == Cancel(1) || step == QuitBegin || step.CleanerSweep?
  {
  }

  lemma FiveSteps(steps: seq<Step>, s: Pool, s1: Pool, s2: Pool, s3: Pool, s4: Pool, s5: Pool)
    requires |steps| == 5 && Takes(s, steps[0], s1) && Takes(s1, steps[1], s2) && Takes(s2, steps[2], s3)
    requires Takes(s3, steps[3], s4) && Takes(s4, steps[4], s5)
    ensures Leads(s, steps, s5)
  {
    LeadsFirst(s, steps);
    LeadsOn(s, steps, 0, s, s1);
    LeadsOn(s, steps, 1, s1, s2);
    LeadsOn(s, steps, 2, s2, s3);
    LeadsOn(s, steps, 3, s3, s4);
    LeadsOn(s, steps, 4, s4, s5);
    assert steps[..5] == steps;
  }

  lemma StrandedStates(s: Pool) returns (s1: Pool, s2: Pool, s3: Pool, s4: Pool)
    requires s == Start(1, 2)
    ensures Takes(s, Create(0), s1) && Takes(s1, Created(0), s2) && Takes(s2, Request(1), s3)
    ensures Takes(s3, GiveUp(0), s4) && Takes(s4, FinishQuit(0, false), STRANDED)
  {
    assert s.callers == [Idle, Idle];
    s1 := s.(callers := [Creating, Idle], sh := s.sh.(numOpen := 1));
    s2 := s1.(callers := [Holding(0), Idle], created := 1);
    s3 := s2.(callers := [Holding(0), Waiting(0)], sh := s1.sh.(requests := {0}, chans := [Chan(None, false, 1)]));
    s4 := s3.(callers := [Quitting(0), Waiting(0)]);
  }

  /** The run in which the one connection allowed is quit without success while a caller
      waits: nothing is open and nothing is coming, so that the caller gets a connection
      only if another one comes along for one, or gives up. */
  lemma StrandedRequest()
    ensures Leads(Start(1, 2), [Create(0), Created(0), Request(1), GiveUp(0), FinishQuit(0, false)], STRANDED)
    ensures !STRANDED.sh.closed && !Served(STRANDED)
    ensures forall step :: Enabled(STRANDED, step) ==>
              step == Create(0) || step == Cancel(1) || step == QuitBegin || step.CleanerSweep?
  {
    var s := Start(1, 2);
    var s1, s2, s3, s4 := StrandedStates(s);
    FiveSteps([Create(0), Created(0), Request(1), GiveUp(0), FinishQuit(0, false)], s, s1, s2, s3, s4, STRANDED);
    forall step ensures Enabled(STRANDED, step) ==> step == Create(0) || step == Cancel(1) || step == QuitBegin || step.CleanerSweep? {
      StrandedSteps(step);
    }
  }

  // ---- what this means when nobody is doing anything ----

  predicate Quiet(s: Pool) {
    && (forall p :: 0 <= p < |s.callers| ==> s.callers[p].Idle?)
    && s.opener.Resting? && s.cleaner == []
  }

  lemma {:induction false} EmptyChannels(chs: seq<Chan>)
    requires forall k :: 0 <= k < |chs| ==> chs[k].buf.None?
    ensures ChanConns(chs) == NONE
  {
    if chs != [] {
      EmptyChannels(chs[..|chs| - 1]);
    }
  }

  lemma QuietChannels(s: Pool)
    requires ChannelsInOrder(s) && Quiet(s)
    ensures forall k :: 0 <= k < |s.sh.chans| ==> s.sh.chans[k].buf.None?
  {
    forall k | 0 <= k < |s.sh.chans| ensures s.sh.chans[k].buf.None? {
      assert FullInOrder(s, k);
    }
  }

  lemma QuietCallers(cs: seq<Caller>)
    requires forall p :: 0 <= p < |cs| ==> cs[p].Idle?
    ensures CallerConns(cs) == NONE && CallersCreating(cs) == 0
  {
    assert cs == seq(|cs|, _ => Idle);
    IdleCallers(|cs|);
  }

  lemma OnlyFree(free: seq<Conn>)
    ensures multiset(free) + NONE + NONE + NONE + multiset([]) == multiset(free)
    ensures |multiset(free)| == |free|
  {
  }

  /** Cancelled requests leak nothing: when no goroutine waits, no connection is left in a
      channel, and all live connections are free. */
  lemma NothingLeaks(s: Pool)
    requires Inv(s) && Quiet(s)
    ensures forall k :: 0 <= k < |s.sh.chans| ==> s.sh.chans[k].buf.None?
    ensures Owned(s) == multiset(LiveFree(s)) && s.sh.numOpen == s.sh.tokens + |LiveFree(s)|
  {
    QuietChannels(s);
    EmptyChannels(s.sh.chans);
    QuietCallers(s.callers);
    OnlyFree(LiveFree(s));
  }

  /** After `Quit` has finished and the opener has dropped its tokens every connection that
      was ever created is dead, and none is counted. */
  lemma QuitClosesAll(s: Pool)
    requires Inv(s) && Quiet(s) && s.sh.closed && s.quitIdx.None? && s.sh.tokens == 0
    ensures s.dead == AllConns(s.created) && s.sh.numOpen == 0
  {
    NothingLeaks(s);
    assert LiveFree(s) == [];
    assert multiset(LiveFree(s)) == NONE;
    assert NONE + s.dead == s.dead;
  }
}
