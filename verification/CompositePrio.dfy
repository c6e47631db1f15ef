/** A trimming queue that prefers packets with shorter paths: when it is full, a shorter-path arrival displaces a
    longer-path packet. The packets queued per path length are counted and the longest is cached. */
module CompositePrio {
  import opened Basics
  import opened WeightedRoundRobin

  const MAX_PATH_LEN: nat := 20
  const RATIO_HIGH: nat := 10
  const RATIO_LOW: nat := 1
  const MAX_QUEUED: nat := 8   // the limit the code asserts

  datatype Packet = Packet(id: nat, size: nat, header: bool, pathLen: nat)

  datatype Config = Config(maxSize: nat, packetSize: nat, headerSize: nat)
  {
    /** Whole packets have one size, and at least one fits. */
    predicate Valid() { 0 < packetSize <= maxSize }
  }

  /** The lists have the most recently queued packet at index 0. The last four fields record the ids of all
      packets that arrived, left and were dropped, and the decisions of the round robin. */
  datatype Queue = Queue(low: seq<Packet>, high: seq<Packet>, lens: seq<nat>, maxQueued: nat, maxSeen: nat,
    sizeLow: int, sizeHigh: int, serv: Serv, crt: nat,
    arrived: multiset<nat>, sent: multiset<nat>, dropped: multiset<nat>, decisions: seq<Decision>)

  function NoCounts(): seq<nat> { seq(MAX_PATH_LEN + 1, i => 0) }

  function InitQueue(): Queue {
    Queue([], [], NoCounts(), 0, 0, 0, 0, Invalid, 0, multiset{}, multiset{}, multiset{}, [])
  }

  // ---------------------------------------------------------------- bookkeeping

  /** The greatest length up to `from` that is counted, 0 if there is none. */
  function FindMax(lens: seq<nat>, from: nat): nat
    requires from < |lens|
  {
    if lens[from] > 0 || from == 0 then from else FindMax(lens, from - 1)
  }

  function Total(lens: seq<nat>, n: nat): nat
    requires n <= |lens|
  {
    if n == 0 then 0 else Total(lens, n - 1) + lens[n - 1]
  }

  /** The assertions on the counts; they leave out the last one. */
  predicate CheckQueued(q: Queue) {
    |q.lens| == MAX_PATH_LEN + 1 && FindMax(q.lens, MAX_PATH_LEN - 1) == q.maxQueued && Total(q.lens, MAX_PATH_LEN) <= MAX_QUEUED
  }

  function Checked(q: Queue): Option<Queue> { if CheckQueued(q) then Some(q) else None }

  /** `None`, here and below, is a failed assertion, an abort or an index out of range. */
  function Enqueue(q: Queue, p: Packet): Option<Queue> {
    if p.pathLen >= |q.lens| then None
    else
      var longer := q.maxQueued < p.pathLen;
      Checked(q.(low := [p] + q.low, sizeLow := q.sizeLow + p.size,
                 lens := q.lens[p.pathLen := q.lens[p.pathLen] + 1],
                 maxQueued := if longer then p.pathLen else q.maxQueued,
                 maxSeen := if longer && q.maxSeen < p.pathLen then p.pathLen else q.maxSeen))
  }

  /** Takes packet `i` out of the low list and updates the counts and the cached maximum. */
  function Remove(q: Queue, i: nat): Option<Queue>
    requires i < |q.low|
  {
    var p := q.low[i];
    if p.pathLen >= |q.lens| || q.lens[p.pathLen] == 0 || q.maxSeen >= |q.lens| then None
    else
      var low, lens := Without(q.low, i), q.lens[p.pathLen := q.lens[p.pathLen] - 1];
      var max := if p.pathLen == q.maxQueued && lens[p.pathLen] == 0
                 then if low == [] then 0 else FindMax(lens, q.maxSeen)
                 else q.maxQueued;
      Checked(q.(low := low, lens := lens, maxQueued := max, sizeLow := q.sizeLow - p.size))
  }

  // ---------------------------------------------------------------- trimming

  /** The first packet, in list order, with a longer path than `prio`. */
  function FirstLonger(low: seq<Packet>, prio: nat): nat {
    if low == [] || low[0].pathLen > prio then 0 else 1 + FirstLonger(low[1..], prio)
  }

  function Strip(c: Config, p: Packet): Packet { p.(size := c.headerSize, header := true) }

  /** Puts a header on the high list if there is space, and drops it if not. */
  function QueueHeader(c: Config, q: Queue, p: Packet): Queue {
    if q.sizeHigh + p.size > c.maxSize then q.(dropped := q.dropped + multiset{p.id})
    else q.(high := [p] + q.high, sizeHigh := q.sizeHigh + p.size)
  }

  function Trim(c: Config, q: Queue, prio: nat): Option<Queue> {
    var i := FirstLonger(q.low, prio);
    if prio >= q.maxQueued || i >= |q.low| then None
    else
      var removed := Remove(q, i);
      if removed.None? then None else Checked(QueueHeader(c, removed.value, Strip(c, q.low[i])))
  }

  // ---------------------------------------------------------------- service

  function Serve(q: Queue, choice: Serv, crt: nat): Queue {
    q.(serv := choice, crt := crt, decisions := q.decisions + [Decision(q.low != [], q.high != [], choice, crt)])
  }

  /** Weighted round robin between two waiting lists. */
  function BeginService(q: Queue): Queue
    requires q.high != [] || q.low != []
  {
    if q.high != [] && q.low != [] then
      var crt := if q.crt + 1 >= RATIO_HIGH + RATIO_LOW then 0 else q.crt + 1;
      Serve(q, if crt < RATIO_HIGH then High else Low, crt)
    else if q.high != [] then Serve(q, High, q.crt)
    else Serve(q, Low, q.crt)
  }

  function ServeIfIdle(q: Queue): Queue
    requires q.high != [] || q.low != []
  {
    if q.serv.Invalid? then BeginService(q) else q
  }

  function DequeueHigh(q: Queue): Option<Queue> {
    if q.high == [] then None
    else
      var p := q.high[|q.high| - 1];
      Checked(q.(high := q.high[..|q.high| - 1], sizeHigh := q.sizeHigh - p.size))
  }

  function CompleteService(q: Queue): Option<Queue> {
    match q.serv
    case Invalid => None
    case Low =>
      if q.low == [] then None
      else
        var next := Remove(q, |q.low| - 1);
        if next.None? then None else Some(Finish(next.value, q.low[|q.low| - 1]))
    case High =>
      if DequeueHigh(q).None? then None else Some(Finish(DequeueHigh(q).value, q.high[|q.high| - 1]))
  }

  function Finish(q: Queue, p: Packet): Queue {
    var sent := q.(serv := Invalid, sent := q.sent + multiset{p.id});
    if q.high != [] || q.low != [] then BeginService(sent) else sent
  }

  // ---------------------------------------------------------------- arrival

  predicate Fits(c: Config, q: Queue, p: Packet) { q.sizeLow + p.size <= c.maxSize }

  function EnqueueAndServe(q: Queue, p: Packet): Option<Queue> {
    var next := Enqueue(q, p);
    if next.None? then None else Some(ServeIfIdle(next.value))
  }

  /** A full queue takes the arrival in place of a queued packet if it has a shorter path than the longest
      queued, or the path length of the last one queued and the coin is in favour. */
  function Receive(c: Config, q: Queue, p: Packet, coin: bool): Option<Queue> {
    if p.header then Some(ReceiveHeader(c, q, p))
    else if Fits(c, q, p) then EnqueueAndServe(q, p)
    else if q.low == [] then None
    else if (p.pathLen == q.low[0].pathLen && coin) || p.pathLen < q.maxQueued then
      if !(p.pathLen < q.maxQueued) && p.pathLen == 0 then None
      else
        var trimmed := Trim(c, q, if p.pathLen < q.maxQueued then p.pathLen else p.pathLen - 1);
        if trimmed.None? || !Fits(c, trimmed.value, p) then None else EnqueueAndServe(trimmed.value, p)
    else Some(ReceiveHeader(c, q, Strip(c, p)))
  }

  function ReceiveHeader(c: Config, q: Queue, p: Packet): Queue {
    if q.sizeHigh + p.size > c.maxSize then QueueHeader(c, q, p) else ServeIfIdle(QueueHeader(c, q, p))
  }

  datatype Step = Arrive(packet: Packet, coin: bool) | Complete

  function Apply(c: Config, q: Queue, s: Step): Option<Queue> {
    match s
    case Arrive(p, coin) => Receive(c, q.(arrived := q.arrived + multiset{p.id}), p, coin)
    case Complete => if q.serv.Invalid? then Some(q) else CompleteService(q)
  }

  /** Whole packets have the packet size and a path of 1 to 19 hops. */
  predicate ValidStep(c: Config, s: Step) {
    s.Arrive? && !s.packet.header ==> s.packet.size == c.packetSize && 1 <= s.packet.pathLen < MAX_PATH_LEN
  }

  // ---------------------------------------------------------------- the invariant

  function CountLen(low: seq<Packet>, len: nat): nat {
    if low == [] then 0 else (if low[0].pathLen == len then 1 else 0) + CountLen(low[1..], len)
  }

  function Longest(low: seq<Packet>): nat {
    if low == [] then 0
    else
      var rest := Longest(low[1..]);
      if low[0].pathLen > rest then low[0].pathLen else rest
  }

  function Ids(s: seq<Packet>): multiset<nat> {
    if s == [] then multiset{} else multiset{s[0].id} + Ids(s[1..])
  }

  function Bytes(s: seq<Packet>): nat {
    if s == [] then 0 else s[0].size + Bytes(s[1..])
  }

  /** The counts are those of the list. */
  ghost predicate Histogram(lens: seq<nat>, low: seq<Packet>) {
    |lens| == MAX_PATH_LEN + 1 && forall l :: 0 <= l < |lens| ==> lens[l] == CountLen(low, l)
  }

  ghost predicate WholePackets(c: Config, low: seq<Packet>) {
    forall i :: 0 <= i < |low| ==> !low[i].header && low[i].size == c.packetSize && 1 <= low[i].pathLen < MAX_PATH_LEN
  }

  ghost predicate Books(c: Config, q: Queue) {
    && Histogram(q.lens, q.low) && q.maxQueued == Longest(q.low)
    && q.maxQueued <= q.maxSeen < MAX_PATH_LEN && WholePackets(c, q.low)
  }

  ghost predicate Sizes(c: Config, q: Queue) {
    && q.sizeLow == |q.low| * c.packetSize <= c.maxSize
    && q.sizeHigh == Bytes(q.high) <= c.maxSize
  }

  predicate Busy(q: Queue) {
    && (q.serv.Invalid? <==> q.low == [] && q.high == [])
    && (q.serv.Low? ==> q.low != []) && (q.serv.High? ==> q.high != [])
  }

  ghost predicate EveryArrivalOnce(q: Queue) {
    q.arrived == Ids(q.low) + Ids(q.high) + q.sent + q.dropped
  }

  ghost predicate Inv(c: Config, q: Queue) {
    Books(c, q) && Sizes(c, q) && Busy(q) && EveryArrivalOnce(q) && |q.low| <= MAX_QUEUED
  }

  /** The asserted limit of eight queued packets is met by the size of the queue. */
  predicate HoldsEight(c: Config) { c.maxSize < (MAX_QUEUED + 1) * c.packetSize }

  // ---------------------------------------------------------------- counts and maxima

  lemma {:induction false} LongestIs(low: seq<Packet>)
    ensures forall i :: 0 <= i < |low| ==> low[i].pathLen <= Longest(low)
    ensures low != [] ==> CountLen(low, Longest(low)) > 0
    ensures forall l :: l > Longest(low) ==> CountLen(low, l) == 0
    decreases |low|
  {
    if low == [] {
    } else {
      LongestIs(low[1..]);
      assert forall i :: 0 < i < |low| ==> low[i] == low[1..][i-1];
      assert low[1..] == [] || CountLen(low[1..], Longest(low[1..])) > 0;
    }
  }

  lemma {:induction false} CountedIsThere(low: seq<Packet>, len: nat)
    requires CountLen(low, len) > 0
    ensures exists i :: 0 <= i < |low| && low[i].pathLen == len
    decreases |low|
  {
    if low[0].pathLen != len {
      CountedIsThere(low[1..], len);
      var i :| 0 <= i < |low[1..]| && low[1..][i].pathLen == len;
      assert low[i+1].pathLen == len;
    }
  }

  /** A counted length that no queued path exceeds is the longest. */
  lemma LongestUnique(low: seq<Packet>, m: nat)
    requires CountLen(low, m) > 0 && forall l :: l > m ==> CountLen(low, l) == 0
    ensures Longest(low) == m
  {
    LongestIs(low);
  }

  lemma {:induction false} FindMaxIsLongest(lens: seq<nat>, low: seq<Packet>, from: nat)
    requires Histogram(lens, low) && Longest(low) <= from < |lens|
    ensures FindMax(lens, from) == Longest(low)
    decreases from
  {
    LongestIs(low);
    if from > Longest(low) {
      FindMaxIsLongest(lens, low, from - 1);
    }
  }

  function CountBelow(low: seq<Packet>, n: nat): nat {
    if low == [] then 0 else (if low[0].pathLen < n then 1 else 0) + CountBelow(low[1..], n)
  }

  lemma {:induction false} CountBelowNext(low: seq<Packet>, n: nat)
    ensures CountBelow(low, n + 1) == CountBelow(low, n) + CountLen(low, n)
    decreases |low|
  {
    if low == [] {
    } else {
      CountBelowNext(low[1..], n);
    }
  }

  lemma {:induction false} CountBelowEnds(c: Config, low: seq<Packet>)
    requires WholePackets(c, low)
    ensures CountBelow(low, 0) == 0 && CountBelow(low, MAX_PATH_LEN) == |low|
    decreases |low|
  {
    if low == [] {
    } else {
      CountBelowEnds(c, low[1..]);
    }
  }

  lemma {:induction false} TotalIsBelow(lens: seq<nat>, low: seq<Packet>, n: nat)
    requires Histogram(lens, low) && n <= |lens| && CountBelow(low, 0) == 0
    ensures Total(lens, n) == CountBelow(low, n)
    decreases n
  {
    if n == 0 {
    } else {
      TotalIsBelow(lens, low, n - 1);
      CountBelowNext(low, n - 1);
    }
  }

  /** The asserted checks hold exactly while at most eight packets are queued. */
  lemma ChecksHoldIff(c: Config, q: Queue)
    requires Books(c, q)
    ensures CheckQueued(q) <==> |q.low| <= MAX_QUEUED
  {
    FindMaxIsLongest(q.lens, q.low, MAX_PATH_LEN - 1);
    CountBelowEnds(c, q.low);
    TotalIsBelow(q.lens, q.low, MAX_PATH_LEN);
  }

  // ---------------------------------------------------------------- one packet more or less

  function Without(low: seq<Packet>, i: nat): seq<Packet>
    requires i < |low|
  {
    low[..i] + low[i+1..]
  }

  lemma WithoutTail(low: seq<Packet>, i: nat)
    requires 0 < i < |low|
    ensures Without(low, i) != [] && Without(low, i)[0] == low[0] && Without(low, i)[1..] == Without(low[1..], i - 1)
    ensures low[1..][i-1] == low[i]
  {
  }

  lemma WithoutFirst(low: seq<Packet>)
    requires low != []
    ensures Without(low, 0) == low[1..]
  {
  }

  lemma {:induction false} WithoutCount(low: seq<Packet>, i: nat, l: nat)
    requires i < |low|
    ensures CountLen(Without(low, i), l) == CountLen(low, l) - (if low[i].pathLen == l then 1 else 0)
    decreases |low|
  {
    hide Without;
    if i > 0 {
      WithoutTail(low, i);
      WithoutCount(low[1..], i - 1, l);
    } else {
      WithoutFirst(low);
    }
  }

  lemma {:induction false} WithoutIds(low: seq<Packet>, i: nat)
    requires i < |low|
    ensures Ids(low) == Ids(Without(low, i)) + multiset{low[i].id} && Bytes(low) == Bytes(Without(low, i)) + low[i].size
    decreases |low|
  {
    hide Without, Ids, Bytes;
    FirstAndRest(low);
    if i > 0 {
      WithoutTail(low, i);
      WithoutIds(low[1..], i - 1);
      FirstAndRest(Without(low, i));
      AddFirst(low[0].id, Ids(low[1..]), Ids(Without(low[1..], i - 1)), low[i].id);
    } else {
      WithoutFirst(low);
    }
  }

  lemma FirstAndRest(low: seq<Packet>)
    requires low != []
    ensures Ids(low) == multiset{low[0].id} + Ids(low[1..]) && Bytes(low) == low[0].size + Bytes(low[1..])
  {
  }

  lemma AddFirst(first: nat, all: multiset<nat>, rest: multiset<nat>, id: nat)
    requires all == rest + multiset{id}
    ensures multiset{first} + all == (multiset{first} + rest) + multiset{id}
  {
  }

  lemma EnqueueBooks(c: Config, q: Queue, p: Packet)
    requires Books(c, q) && !p.header && p.size == c.packetSize && 1 <= p.pathLen < MAX_PATH_LEN
    ensures Enqueue(q, p).Some? <==> |q.low| < MAX_QUEUED
    ensures Enqueue(q, p).Some? ==> Books(c, Enqueue(q, p).value)
  {
    var longer := q.maxQueued < p.pathLen;
    var q' := q.(low := [p] + q.low, sizeLow := q.sizeLow + p.size,
                 lens := q.lens[p.pathLen := q.lens[p.pathLen] + 1],
                 maxQueued := if longer then p.pathLen else q.maxQueued,
                 maxSeen := if longer && q.maxSeen < p.pathLen then p.pathLen else q.maxSeen);
    assert Books(c, q') by {
      assert q'.low[1..] == q.low;
      hide CountLen, Longest;
      assert forall l :: CountLen(q'.low, l) == CountLen(q.low, l) + (if p.pathLen == l then 1 else 0) by {
        CountCons(p, q.low);
      }
    }
    ChecksHoldIff(c, q');
  }

  lemma CountCons(p: Packet, low: seq<Packet>)
    ensures forall l :: CountLen([p] + low, l) == CountLen(low, l) + (if p.pathLen == l then 1 else 0)
    ensures Longest([p] + low) == if p.pathLen > Longest(low) then p.pathLen else Longest(low)
    ensures Ids([p] + low) == Ids(low) + multiset{p.id} && Bytes([p] + low) == Bytes(low) + p.size
  {
    assert ([p] + low)[1..] == low;
  }

  lemma RemoveBooks(c: Config, q: Queue, i: nat)
    requires Books(c, q) && i < |q.low|
    ensures Remove(q, i).Some? <==> |q.low| <= MAX_QUEUED + 1
    ensures Remove(q, i).Some? ==> Books(c, Remove(q, i).value)
  {
    hide CountLen, Longest, Histogram, WholePackets, FindMax, Without, CheckQueued;
    var p := q.low[i];
    RemoveCounts(c, q, i);
    RemoveLongest(q.low, i);
    var low, lens := Without(q.low, i), q.lens[p.pathLen := q.lens[p.pathLen] - 1];
    if low != [] {
      FindMaxIsLongest(lens, low, q.maxSeen);
    } else {
      assert Longest(low) == 0 by { LongestIs(low); LongestOfNone(); }
    }
    var max := if p.pathLen == q.maxQueued && lens[p.pathLen] == 0 then if low == [] then 0 else FindMax(lens, q.maxSeen) else q.maxQueued;
    var q' := q.(low := low, lens := lens, maxQueued := max, sizeLow := q.sizeLow - p.size);
    ChecksHoldIff(c, q');
  }

  lemma LongestOfNone()
    ensures Longest([]) == 0
  {
  }

  lemma RemoveCounts(c: Config, q: Queue, i: nat)
    requires Books(c, q) && i < |q.low|
    ensures var p := q.low[i];
      && p.pathLen < |q.lens| == MAX_PATH_LEN + 1 && q.lens[p.pathLen] == CountLen(q.low, p.pathLen) > 0
      && 1 <= p.pathLen <= Longest(q.low) && |Without(q.low, i)| == |q.low| - 1
      && Histogram(q.lens[p.pathLen := q.lens[p.pathLen] - 1], Without(q.low, i)) && WholePackets(c, Without(q.low, i))
      && CountLen(Without(q.low, i), p.pathLen) == q.lens[p.pathLen] - 1
  {
    hide CountLen, Longest, Without, WholePackets;
    var p := q.low[i];
    RemoveLongest(q.low, i);
    LongestIs(q.low);
    assert 1 <= p.pathLen < MAX_PATH_LEN by { OneWhole(c, q.low, i); }
    WithoutWhole(c, q.low, i);
    WithoutShorter(q.low, i);
    WithoutCounts(q.lens, q.low, i);
  }

  lemma OneWhole(c: Config, low: seq<Packet>, i: nat)
    requires WholePackets(c, low) && i < |low|
    ensures 1 <= low[i].pathLen < MAX_PATH_LEN
  {
  }

  lemma WithoutWhole(c: Config, low: seq<Packet>, i: nat)
    requires WholePackets(c, low) && i < |low|
    ensures WholePackets(c, Without(low, i))
  {
    var rest := Without(low, i);
    assert forall j :: 0 <= j < |rest| ==> rest[j] == if j < i then low[j] else low[j+1];
  }

  lemma WithoutCounts(lens: seq<nat>, low: seq<Packet>, i: nat)
    requires Histogram(lens, low) && i < |low| && low[i].pathLen < |lens| && CountLen(low, low[i].pathLen) > 0
    ensures CountLen(Without(low, i), low[i].pathLen) == lens[low[i].pathLen] - 1
    ensures Histogram(lens[low[i].pathLen := lens[low[i].pathLen] - 1], Without(low, i))
  {
    hide CountLen, Without;
    forall l ensures CountLen(Without(low, i), l) == CountLen(low, l) - (if low[i].pathLen == l then 1 else 0) {
      WithoutCount(low, i, l);
    }
  }

  /** Taking out a packet leaves the longest as it is, unless it was the last of its length. */
  lemma RemoveLongest(low: seq<Packet>, i: nat)
    requires i < |low|
    ensures CountLen(low, low[i].pathLen) > 0
    ensures var rest := Without(low, i);
      Longest(rest) <= Longest(low) &&
      (low[i].pathLen < Longest(low) || CountLen(rest, low[i].pathLen) > 0 ==> Longest(rest) == Longest(low))
  {
    var rest := Without(low, i);
    LongestIs(low);
    LongestIs(rest);
    forall l ensures CountLen(rest, l) == CountLen(low, l) - (if low[i].pathLen == l then 1 else 0) {
      WithoutCount(low, i, l);
    }
    if low[i].pathLen < Longest(low) || CountLen(rest, low[i].pathLen) > 0 {
      LongestUnique(rest, Longest(low));
    }
  }

  // ---------------------------------------------------------------- displacement

  lemma {:induction false} FirstLongerIs(low: seq<Packet>, prio: nat)
    ensures var i := FirstLonger(low, prio);
      && (i < |low| <==> prio < Longest(low)) && i <= |low|
      && (i < |low| ==> low[i].pathLen > prio) && (forall j :: 0 <= j < i ==> low[j].pathLen <= prio)
    decreases |low|
  {
    if low != [] && low[0].pathLen <= prio {
      FirstLongerIs(low[1..], prio);
      forall j | 0 <= j < FirstLonger(low, prio) ensures low[j].pathLen <= prio {
        assert j > 0 ==> low[j] == low[1..][j-1];
      }
    }
  }

  /** Trimming for a packet shorter than the longest queued always finds its victim, the most recently queued packet
      with a longer path, so the abort is out of reach. */
  lemma TrimFindsVictim(c: Config, q: Queue, prio: nat)
    requires Books(c, q) && prio < q.maxQueued
    ensures var i := FirstLonger(q.low, prio);
      i < |q.low| && q.low[i].pathLen > prio && forall j :: 0 <= j < i ==> q.low[j].pathLen <= prio
  {
    hide Books, FirstLonger;
    FirstLongerIs(q.low, prio);
    LongestCached(c, q);
  }

  /** The assertions on the counts then hold unless more than eight packets are left, and only the victim goes:
      its header takes the place it can. */
  lemma TrimKeeps(c: Config, q: Queue, prio: nat)
    requires Books(c, q) && Sizes(c, q) && prio < q.maxQueued
    ensures FirstLonger(q.low, prio) < |q.low|
    ensures Trim(c, q, prio).Some? <==> |q.low| <= MAX_QUEUED + 1
    ensures var i, r := FirstLonger(q.low, prio), Trim(c, q, prio);
      r.Some? ==>
        && Books(c, r.value) && Sizes(c, r.value) && r.value.low == Without(q.low, i)
        && Remove(q, i).Some? && r.value == QueueHeader(c, Remove(q, i).value, Strip(c, q.low[i]))
  {
    hide Remove, Books, Sizes, CheckQueued, QueueHeader, FirstLonger, Strip;
    var i := FirstLonger(q.low, prio);
    TrimFindsVictim(c, q, prio);
    RemoveBooks(c, q, i);
    if Remove(q, i).Some? {
      RemoveSizes(c, q, i);
      var removed := Remove(q, i).value;
      var trimmed := QueueHeader(c, removed, Strip(c, q.low[i]));
      HeaderKeeps(c, removed, Strip(c, q.low[i]));
      HeaderLeaves(c, removed, Strip(c, q.low[i]));
      assert |trimmed.low| <= MAX_QUEUED by { WithoutShorter(q.low, i); }
      ChecksHoldIff(c, trimmed);
    }
  }

  lemma LongestCached(c: Config, q: Queue)
    requires Books(c, q)
    ensures q.maxQueued == Longest(q.low)
  {
  }

  lemma WithoutShorter(low: seq<Packet>, i: nat)
    requires i < |low|
    ensures |Without(low, i)| == |low| - 1
  {
  }

  lemma RemoveSizes(c: Config, q: Queue, i: nat)
    requires Books(c, q) && Sizes(c, q) && i < |q.low| && Remove(q, i).Some?
    ensures Sizes(c, Remove(q, i).value) && Remove(q, i).value.low == Without(q.low, i)
    ensures Remove(q, i).value.sizeLow + c.packetSize == q.sizeLow
  {
    hide FindMax, CountLen, Longest;
    assert (|q.low| - 1) * c.packetSize == |q.low| * c.packetSize - c.packetSize;
  }

  lemma HeaderKeeps(c: Config, q: Queue, p: Packet)
    requires Sizes(c, q)
    ensures Sizes(c, QueueHeader(c, q, p)) && (Books(c, q) ==> Books(c, QueueHeader(c, q, p)))
  {
    CountCons(p, q.high);
  }

  // ---------------------------------------------------------------- every step

  lemma EnqueueAndServeInv(c: Config, q: Queue, p: Packet)
    requires c.Valid() && Books(c, q) && Sizes(c, q) && Fits(c, q, p) && (q.serv.Invalid? ==> q.low == [] && q.high == [])
    requires q.serv.High? ==> q.high != []
    requires !p.header && p.size == c.packetSize && 1 <= p.pathLen < MAX_PATH_LEN
    requires q.arrived == Ids(q.low) + Ids(q.high) + q.sent + q.dropped + multiset{p.id}
    ensures EnqueueAndServe(q, p).Some? <==> |q.low| < MAX_QUEUED
    ensures EnqueueAndServe(q, p).Some? ==> Inv(c, EnqueueAndServe(q, p).value) && EnqueueAndServe(q, p).value.low == [p] + q.low
  {
    hide Books, Sizes, Enqueue, Ids, Bytes, EveryArrivalOnce;
    EnqueueBooks(c, q, p);
    if Enqueue(q, p).Some? {
      EnqueueKeeps(c, q, p);
      ServingKeeps(c, Enqueue(q, p).value);
    }
  }

  lemma EnqueueKeeps(c: Config, q: Queue, p: Packet)
    requires c.Valid() && Sizes(c, q) && Fits(c, q, p) && p.size == c.packetSize && Enqueue(q, p).Some?
    requires q.arrived == Ids(q.low) + Ids(q.high) + q.sent + q.dropped + multiset{p.id}
    ensures var q' := Enqueue(q, p).value;
      q'.low == [p] + q.low && q'.high == q.high && q'.serv == q.serv && Sizes(c, q') && EveryArrivalOnce(q')
  {
    hide CheckQueued, Ids, Bytes;
    CountCons(p, q.low);
    OneMore(|q.low|, c.packetSize);
  }

  lemma OneMore(n: nat, size: nat)
    ensures (n + 1) * size == n * size + size
  {
  }

  lemma ReceiveHeaderInv(c: Config, q: Queue, p: Packet)
    requires Books(c, q) && Sizes(c, q) && Busy(q) && |q.low| <= MAX_QUEUED
    requires q.arrived == Ids(q.low) + Ids(q.high) + q.sent + q.dropped + multiset{p.id}
    ensures Inv(c, ReceiveHeader(c, q, p))
  {
    hide Books, Sizes, Ids, Bytes, Longest, CountLen;
    CountCons(p, q.high);
    HeaderKeeps(c, q, p);
    var q' := QueueHeader(c, q, p);
    assert q'.arrived == Ids(q'.low) + Ids(q'.high) + q'.sent + q'.dropped;
    if q.sizeHigh + p.size <= c.maxSize {
      ServingKeeps(c, q');
    }
  }

  lemma ServingKeeps(c: Config, q: Queue)
    requires Books(c, q) && Sizes(c, q) && EveryArrivalOnce(q) && |q.low| <= MAX_QUEUED && (q.high != [] || q.low != [])
    requires (q.serv.Low? ==> q.low != []) && (q.serv.High? ==> q.high != [])
    ensures Inv(c, ServeIfIdle(q))
  {
    hide Longest, CountLen, Histogram, WholePackets, Ids, Bytes;
  }

  /** A packet taken from the low list is accounted for by its header, queued or dropped. */
  lemma HeaderKeepsIds(c: Config, q: Queue, removed: Queue, i: nat, p: Packet)
    requires i < |q.low| && removed.low == Without(q.low, i) && removed.high == q.high
    requires removed.arrived == q.arrived && removed.sent == q.sent && removed.dropped == q.dropped
    requires q.arrived == Ids(q.low) + Ids(q.high) + q.sent + q.dropped + multiset{p.id}
    ensures var r := QueueHeader(c, removed, Strip(c, q.low[i]));
      r.arrived == Ids(r.low) + Ids(r.high) + r.sent + r.dropped + multiset{p.id}
  {
    hide Ids, Bytes, Without;
    WithoutIds(q.low, i);
    CountCons(Strip(c, q.low[i]), q.high);
  }

  lemma HeaderLeaves(c: Config, q: Queue, p: Packet)
    ensures var r := QueueHeader(c, q, p); r.low == q.low && r.serv == q.serv && (q.high != [] ==> r.high != [])
  {
  }

  lemma TrimmedArrivalInv(c: Config, q: Queue, p: Packet, prio: nat)
    requires c.Valid() && Books(c, q) && Sizes(c, q) && Busy(q) && |q.low| <= MAX_QUEUED && prio < q.maxQueued
    requires !p.header && p.size == c.packetSize && 1 <= p.pathLen < MAX_PATH_LEN
    requires q.arrived == Ids(q.low) + Ids(q.high) + q.sent + q.dropped + multiset{p.id}
    ensures var r := Trim(c, q, prio);
      && r.Some? && Fits(c, r.value, p) && EnqueueAndServe(r.value, p).Some? && Inv(c, EnqueueAndServe(r.value, p).value)
      && EnqueueAndServe(r.value, p).value.low == [p] + Without(q.low, FirstLonger(q.low, prio))
  {
    hide Books, Sizes, Remove, Trim, EnqueueAndServe, Ids, Bytes, QueueHeader;
    TrimKeeps(c, q, prio);
    var i, r := FirstLonger(q.low, prio), Trim(c, q, prio).value;
    RemoveFields(q, i);
    TrimMakesRoom(c, q, i, p);
    HeaderKeepsIds(c, q, Remove(q, i).value, i, p);
    HeaderLeaves(c, Remove(q, i).value, Strip(c, q.low[i]));
    assert |r.low| < |q.low| by { WithoutShorter(q.low, i); }
    EnqueueAndServeInv(c, r, p);
  }

  lemma TrimMakesRoom(c: Config, q: Queue, i: nat, p: Packet)
    requires Books(c, q) && Sizes(c, q) && i < |q.low| && Remove(q, i).Some? && p.size == c.packetSize
    ensures Fits(c, QueueHeader(c, Remove(q, i).value, Strip(c, q.low[i])), p)
  {
    hide Remove, Books;
    RemoveSizes(c, q, i);
  }

  lemma RemoveFields(q: Queue, i: nat)
    requires i < |q.low| && Remove(q, i).Some?
    ensures var q' := Remove(q, i).value;
      q' == q.(low := Without(q.low, i), lens := q'.lens, maxQueued := q'.maxQueued, sizeLow := q.sizeLow - q.low[i].size)
  {
  }

  lemma CompleteServiceInv(c: Config, q: Queue)
    requires c.Valid() && Inv(c, q) && !q.serv.Invalid?
    ensures CompleteService(q).Some? && Inv(c, CompleteService(q).value)
  {
    hide Books, Sizes, Remove, DequeueHigh, Finish, EveryArrivalOnce;
    if q.serv.Low? {
      SendLow(c, q);
      FinishInv(c, Remove(q, |q.low| - 1).value, q.low[|q.low| - 1]);
    } else {
      SendHigh(c, q);
      FinishInv(c, DequeueHigh(q).value, q.high[|q.high| - 1]);
    }
  }

  /** Between the removal of the packet that is sent and the next service. */
  ghost predicate Sending(c: Config, q: Queue, p: Packet) {
    && Books(c, q) && Sizes(c, q) && |q.low| <= MAX_QUEUED
    && q.arrived == Ids(q.low) + Ids(q.high) + q.sent + q.dropped + multiset{p.id}
  }

  lemma SendLow(c: Config, q: Queue)
    requires Inv(c, q) && q.low != []
    ensures var i := |q.low| - 1; Remove(q, i).Some? && Sending(c, Remove(q, i).value, q.low[i])
  {
    hide Books, Sizes, Remove, Ids, Bytes, Busy;
    var i := |q.low| - 1;
    RemoveBooks(c, q, i);
    RemoveSizes(c, q, i);
    RemoveFields(q, i);
    WithoutIds(q.low, i);
  }

  lemma SendHigh(c: Config, q: Queue)
    requires Inv(c, q) && q.high != []
    ensures DequeueHigh(q).Some? && Sending(c, DequeueHigh(q).value, q.high[|q.high| - 1])
  {
    hide Longest, CountLen, Histogram, WholePackets, FindMax, Total, Ids, Bytes, CheckQueued, Busy;
    var i := |q.high| - 1;
    WithoutIds(q.high, i);
    assert Without(q.high, i) == q.high[..i];
    ChecksHoldIff(c, q.(high := q.high[..i], sizeHigh := q.sizeHigh - q.high[i].size));
  }

  lemma FinishInv(c: Config, q: Queue, p: Packet)
    requires Sending(c, q, p)
    ensures Inv(c, Finish(q, p))
  {
    hide Longest, CountLen, Histogram, WholePackets, Ids, Bytes;
  }

  /** Every step that goes through keeps the counts, the cached maximum, the sizes and the packets. It fails an
      assertion exactly if it queues a ninth packet. */
  lemma StepInv(c: Config, q: Queue, s: Step)
    requires c.Valid() && Inv(c, q) && ValidStep(c, s)
    ensures Apply(c, q, s).None? <==> s.Arrive? && QueuesNinth(c, q, s.packet)
    ensures Apply(c, q, s).Some? ==> Inv(c, Apply(c, q, s).value)
  {
    hide Books, Sizes, Busy, EveryArrivalOnce, CompleteService, EnqueueAndServe, Trim, ReceiveHeader, Fits;
    match s
    case Complete =>
      if !q.serv.Invalid? {
        CompleteServiceInv(c, q);
      }
    case Arrive(p, coin) => ArriveInv(c, q, p, coin);
  }

  predicate QueuesNinth(c: Config, q: Queue, p: Packet) {
    !p.header && Fits(c, q, p) && |q.low| == MAX_QUEUED
  }

  lemma ArriveInv(c: Config, q: Queue, p: Packet, coin: bool)
    requires c.Valid() && Inv(c, q) && ValidStep(c, Arrive(p, coin))
    ensures Apply(c, q, Arrive(p, coin)).None? <==> QueuesNinth(c, q, p)
    ensures Apply(c, q, Arrive(p, coin)).Some? ==> Inv(c, Apply(c, q, Arrive(p, coin)).value)
  {
    hide Longest, CountLen, Histogram, WholePackets, Ids, Bytes, EnqueueAndServe, Trim, ReceiveHeader;
    var q1 := q.(arrived := q.arrived + multiset{p.id});
    if p.header {
      ReceiveHeaderInv(c, q1, p);
    } else if Fits(c, q1, p) {
      EnqueueAndServeInv(c, q1, p);
    } else {
      FullIsNotEmpty(c, q1, p);
      LongestIs(q1.low);
      if p.pathLen < q1.maxQueued {
        TrimmedArrivalInv(c, q1, p, p.pathLen);
      } else if p.pathLen == q1.low[0].pathLen && coin {
        TrimmedArrivalInv(c, q1, p, p.pathLen - 1);
      } else {
        ReceiveHeaderInv(c, q1, Strip(c, p));
      }
    }
  }

  lemma FitsIsEight(c: Config, q: Queue, p: Packet)
    requires c.Valid() && HoldsEight(c) && Sizes(c, q) && p.size == c.packetSize && Fits(c, q, p)
    ensures |q.low| < MAX_QUEUED
  {
    assert |q.low| >= 8 ==> |q.low| * c.packetSize >= 8 * c.packetSize;
  }

  lemma FullIsNotEmpty(c: Config, q: Queue, p: Packet)
    requires c.Valid() && Sizes(c, q) && p.size == c.packetSize && !Fits(c, q, p)
    ensures q.low != []
  {
  }

  function Run(c: Config, q: Queue, steps: seq<Step>): Option<Queue>
    decreases |steps|
  {
    if steps == [] then Some(q)
    else if Apply(c, q, steps[0]).None? then None
    else Run(c, Apply(c, q, steps[0]).value, steps[1..])
  }

  ghost predicate ValidSteps(c: Config, steps: seq<Step>) {
    forall i :: 0 <= i < |steps| ==> ValidStep(c, steps[i])
  }

  lemma InitInv(c: Config)
    ensures Inv(c, InitQueue())
  {
  }

  lemma {:induction false} RunInv(c: Config, q: Queue, steps: seq<Step>)
    requires c.Valid() && Inv(c, q) && ValidSteps(c, steps)
    ensures Run(c, q, steps).Some? ==> Inv(c, Run(c, q, steps).value)
    ensures HoldsEight(c) ==> Run(c, q, steps).Some?
    decreases |steps|
  {
    hide Inv, Apply, HoldsEight;
    if steps == [] {
    } else {
      assert ValidStep(c, steps[0]);
      StepInv(c, q, steps[0]);
      if HoldsEight(c) {
        NoNinth(c, q, steps[0]);
      }
      if Apply(c, q, steps[0]).Some? {
        RunInv(c, Apply(c, q, steps[0]).value, steps[1..]);
      }
    }
  }

  lemma NoNinth(c: Config, q: Queue, s: Step)
    requires c.Valid() && Inv(c, q) && HoldsEight(c) && ValidStep(c, s)
    ensures s.Arrive? ==> !QueuesNinth(c, q, s.packet)
  {
    hide Books, Busy, EveryArrivalOnce;
    if s.Arrive? && !s.packet.header && Fits(c, q, s.packet) {
      FitsIsEight(c, q, s.packet);
    }
  }

  /** In every run, for a queue of any size, the counts are those of the low list, the cached maximum is its longest
      path, 0 when it is empty, and every arrival is queued, sent or dropped exactly once. */
  lemma BooksAreExact(c: Config, steps: seq<Step>)
    requires c.Valid() && ValidSteps(c, steps) && Run(c, InitQueue(), steps).Some?
    ensures var q := Run(c, InitQueue(), steps).value;
      && |q.lens| == MAX_PATH_LEN + 1 && (forall l :: 0 <= l <= MAX_PATH_LEN ==> q.lens[l] == CountLen(q.low, l))
      && (forall i :: 0 <= i < |q.low| ==> q.low[i].pathLen <= q.maxQueued)
      && (if q.low == [] then q.maxQueued == 0 else exists i :: 0 <= i < |q.low| && q.low[i].pathLen == q.maxQueued)
      && q.arrived == Ids(q.low) + Ids(q.high) + q.sent + q.dropped
  {
    hide CountLen, Ids, WholePackets, Run, NoCounts;
    InitInv(c);
    RunInv(c, InitQueue(), steps);
    var q := Run(c, InitQueue(), steps).value;
    LongestIs(q.low);
    LongestOfNone();
    if q.low != [] {
      CountedIsThere(q.low, q.maxQueued);
    }
  }

  /** Packet `i` is the most recently queued one with a path longer than `len`. */
  ghost predicate Victim(low: seq<Packet>, len: nat, i: nat) {
    i < |low| && low[i].pathLen > len && forall j :: 0 <= j < i ==> low[j].pathLen <= len
  }

  /** A full queue takes a whole packet exactly if its path is shorter than some queued one's, or the coin
      favours it and the last queued packet's path is as long; it then displaces the most recently queued
      packet with a longer path, in the second case the last queued one. Otherwise its own header is queued. */
  lemma Displacement(c: Config, q: Queue, p: Packet, coin: bool)
    requires c.Valid() && Inv(c, q) && ValidStep(c, Arrive(p, coin)) && !p.header && !Fits(c, q, p)
    ensures q.low != [] && Apply(c, q, Arrive(p, coin)).Some?
    ensures var low, low' := q.low, Apply(c, q, Arrive(p, coin)).value.low;
      if exists j :: 0 <= j < |low| && low[j].pathLen > p.pathLen then
        exists i :: Victim(low, p.pathLen, i) && low' == [p] + Without(low, i)
      else if low[0].pathLen == p.pathLen && coin then low' == [p] + low[1..]
      else low' == low
  {
    hide Inv, Apply, Victim;
    ArriveInv(c, q, p, coin);
    assert q.low != [] && q.maxQueued == Longest(q.low) by { FullState(c, q, p); }
    LongestIs(q.low);
    FirstLongerIs(q.low, p.pathLen);
    if p.pathLen < Longest(q.low) {
      ShorterDisplaces(c, q, p, coin);
    } else if p.pathLen == q.low[0].pathLen && coin {
      EqualDisplaces(c, q, p);
    } else {
      NeitherDisplaces(c, q, p, coin);
    }
  }

  lemma FullState(c: Config, q: Queue, p: Packet)
    requires c.Valid() && Inv(c, q) && p.size == c.packetSize && !Fits(c, q, p)
    ensures q.low != [] && q.maxQueued == Longest(q.low)
  {
    hide Histogram, Longest;
    FullIsNotEmpty(c, q, p);
  }

  lemma ShorterDisplaces(c: Config, q: Queue, p: Packet, coin: bool)
    requires c.Valid() && Inv(c, q) && ValidStep(c, Arrive(p, coin)) && !p.header && !Fits(c, q, p)
    requires q.low != [] && p.pathLen < Longest(q.low) && Apply(c, q, Arrive(p, coin)).Some?
    ensures Victim(q.low, p.pathLen, FirstLonger(q.low, p.pathLen))
    ensures Apply(c, q, Arrive(p, coin)).value.low == [p] + Without(q.low, FirstLonger(q.low, p.pathLen))
  {
    hide CountLen, Longest, Ids, Bytes, EnqueueAndServe, Trim, Histogram, WholePackets, FirstLonger, Without;
    FirstLongerIs(q.low, p.pathLen);
    TrimmedArrivalInv(c, q.(arrived := q.arrived + multiset{p.id}), p, p.pathLen);
  }

  lemma EqualDisplaces(c: Config, q: Queue, p: Packet)
    requires c.Valid() && Inv(c, q) && ValidStep(c, Arrive(p, true)) && !p.header && !Fits(c, q, p)
    requires q.low != [] && p.pathLen >= Longest(q.low) && p.pathLen == q.low[0].pathLen && Apply(c, q, Arrive(p, true)).Some?
    ensures Apply(c, q, Arrive(p, true)).value.low == [p] + q.low[1..]
  {
    hide CountLen, Longest, Ids, Bytes, EnqueueAndServe, Trim, Histogram, WholePackets, Without;
    LongestIs(q.low);
    TrimmedArrivalInv(c, q.(arrived := q.arrived + multiset{p.id}), p, p.pathLen - 1);
    WithoutFirst(q.low);
  }

  lemma NeitherDisplaces(c: Config, q: Queue, p: Packet, coin: bool)
    requires Inv(c, q) && !p.header && !Fits(c, q, p) && q.low != [] && Apply(c, q, Arrive(p, coin)).Some?
    requires p.pathLen >= Longest(q.low) && !(p.pathLen == q.low[0].pathLen && coin)
    ensures Apply(c, q, Arrive(p, coin)).value.low == q.low
  {
    hide CountLen, Longest, Ids, Bytes, EnqueueAndServe, Trim, Histogram, WholePackets;
  }

  // ---------------------------------------------------------------- the asserted limit

  function WholePacket(c: Config): Packet { Packet(0, c.packetSize, false, 1) }

  function Arrivals(c: Config, n: nat): (steps: seq<Step>)
    ensures |steps| == n
  {
    if n == 0 then [] else [Arrive(WholePacket(c), false)] + Arrivals(c, n - 1)
  }

  lemma {:induction false} ArrivalsValid(c: Config, n: nat)
    ensures ValidSteps(c, Arrivals(c, n))
  {
    if n == 0 {
    } else {
      ArrivalsValid(c, n - 1);
    }
  }

  lemma {:induction false} NinthArrivalFails(c: Config, q: Queue, n: nat)
    requires c.Valid() && !HoldsEight(c) && Inv(c, q) && |q.low| + n == MAX_QUEUED + 1 && n > 0
    ensures Run(c, q, Arrivals(c, n)).None?
    decreases n
  {
    hide Longest, CountLen, Histogram, WholePackets, Ids, Bytes, EnqueueAndServe;
    var p := WholePacket(c);
    var q1 := q.(arrived := q.arrived + multiset{p.id});
    assert (|q.low| + 1) * c.packetSize <= 9 * c.packetSize;
    assert Fits(c, q1, p);
    EnqueueAndServeInv(c, q1, p);
    if n > 1 {
      NinthArrivalFails(c, Apply(c, q, Arrive(p, false)).value, n - 1);
    }
  }

  /** The assertions, the limit of eight queued packets among them, hold in every run exactly if a ninth packet
      does not fit; the abort of a trim without a victim is then out of reach. */
  lemma AssertionsHoldIff(c: Config)
    requires c.Valid()
    ensures (forall steps :: ValidSteps(c, steps) ==> Run(c, InitQueue(), steps).Some?) <==> c.maxSize < 9 * c.packetSize
  {
    hide Inv, Run, InitQueue;
    InitInv(c);
    if HoldsEight(c) {
      forall steps | ValidSteps(c, steps) ensures Run(c, InitQueue(), steps).Some? {
        RunInv(c, InitQueue(), steps);
      }
    } else {
      ArrivalsValid(c, 9);
      EmptyAtFirst();
      NinthArrivalFails(c, InitQueue(), 9);
    }
  }

  lemma EmptyAtFirst()
    ensures InitQueue().low == []
  {
  }
}
