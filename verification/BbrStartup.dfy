/** When STARTUP ends: exactly if some round of the plateau test sees bandwidth, and then within a bounded number of
    rounds. Runs may contain restarts, which clear the bandwidth slots. */
module BbrStartup {
  import opened BbrModes

  function Growth(k: nat): real {
    if k == 0 then 1.0 else 1.25 * Growth(k - 1)
  }

  ghost predicate SamplesBounded(f: Filter, bmax: real) {
    f.Valid() && (forall s :: s in f.slots ==> s <= bmax) && (forall s :: s in f.current ==> s <= bmax)
  }

  predicate WithinBound(e: Event, bmax: real) { e.Acked? ==> e.ack.bw <= bmax }

  lemma UpdateBounded(f: Filter, bw: real, now: nat, baseRtt: nat, bmax: real)
    requires SamplesBounded(f, bmax) && bw <= bmax && bmax >= 0.0
    ensures SamplesBounded(UpdateFilter(f, bw, now, baseRtt), bmax)
  {
    MaxOfIsMax(f.current + [bw]);
    var f' := UpdateFilter(f, bw, now, baseRtt);
    forall s | s in f'.slots ensures s <= bmax {
      var i :| 0 <= i < |f'.slots| && f'.slots[i] == s;
      if i != f.index {
        assert f.slots[i] in f.slots;
      } else {
        assert s in f.current || s == bw;
      }
    }
  }

  lemma EventBounded(p: Params, m: Machine, e: Event, bmax: real)
    requires MachineInv(m) && SamplesBounded(m.filter, bmax) && WithinBound(e, bmax) && bmax >= 0.0
    ensures SamplesBounded(OnEvent(p, m, e).filter, bmax)
    ensures 0.0 <= GetBestBw(OnEvent(p, m, e)) <= bmax
  {
    hide OnAck, UpdateFilter, BestOf;
    if e.Acked? {
      OnAckInv(p, m, e.ack);
      UpdateBounded(m.filter, e.ack.bw, e.ack.now, p.baseRtt, bmax);
    }
    BestOfIsMax(OnEvent(p, m, e).filter.slots);
  }

  /** Whether this event makes `CheckFullPipe` run a round of the plateau test. */
  predicate TakesRound(m: Machine, e: Event) {
    e.Acked? && !m.plateau.pipeFilled && !m.rttPassed && e.ack.now > m.rttMark
  }

  /** Whether it does and the round finds a positive best bandwidth. */
  predicate SeesBandwidth(p: Params, m: Machine, e: Event)
    requires MachineInv(m)
  {
    TakesRound(m, e) && GetBestBw(OnEvent(p, m, e)) > 0.0
  }

  function Rounds(p: Params, m: Machine, es: seq<Event>): nat
    requires MachineInv(m)
    decreases |es|
  {
    if es == [] then 0
    else
      OnEventInv(p, m, es[0]);
      (if TakesRound(m, es[0]) then 1 else 0) + Rounds(p, OnEvent(p, m, es[0]), es[1..])
  }

  /** The first event whose round sees bandwidth, or the number of events. */
  function FirstSeen(p: Params, m: Machine, es: seq<Event>): (i: nat)
    requires MachineInv(m)
    ensures i <= |es|
    decreases |es|
  {
    if es == [] || SeesBandwidth(p, m, es[0]) then 0
    else
      OnEventInv(p, m, es[0]);
      1 + FirstSeen(p, OnEvent(p, m, es[0]), es[1..])
  }

  /** An event, seen by the plateau test. */
  lemma PlateauStep(p: Params, m: Machine, e: Event)
    requires MachineInv(m)
    ensures var m' := OnEvent(p, m, e);
      m'.plateau == if TakesRound(m, e) then PlateauRound(m.plateau, GetBestBw(m')) else m.plateau
  {
    hide BestOf, MaxOf, InFlight;
  }

  /** Some sample of the last ten windows is positive. */
  ghost predicate HasPositive(ws: seq<seq<real>>) {
    exists i, s :: |ws| - WINDOWS <= i < |ws| && i >= 0 && s in ws[i] && s > 0.0
  }

  /** What a round sees, in terms of the samples: the best bandwidth is positive exactly if one of the ten
      windows that end with the one the sample landed in holds a positive sample not forgotten. */
  lemma RoundSeesRecentSamples(p: Params, m: Machine, ws: seq<seq<real>>, es: seq<Event>, e: AckEvent)
    requires MachineInv(m) && Tracks(m.filter, ws)
    ensures MachineInv(OnEvents(p, m, es))
    ensures SeesBandwidth(p, OnEvents(p, m, es), Acked(e)) <==>
      TakesRound(OnEvents(p, m, es), Acked(e)) && HasPositive(Landed(HistoryOf(p, m, ws, es), e.bw))
  {
    hide OnAck, BestOf, Landed, HistoryOf, OnEvents;
    BestBwIsRecentMax(p, m, ws, es, e);
  }

  // ---------------------------------------------------------------- growth

  lemma {:induction false} GrowthAtLeast(k: nat)
    ensures Growth(k) >= 1.0 + k as real / 4.0
  {
    if k == 0 {
    } else {
      GrowthAtLeast(k - 1);
    }
  }

  lemma GrowthStep(k: nat, b: real, b': real, bmax: real)
    requires k > 0 && 0.0 < b && b * 1.25 <= b' <= bmax < Growth(k) * b
    ensures k > 1 && bmax < Growth(k - 1) * b'
  {
    GrowthAtLeast(k - 1);
    var g := Growth(k - 1);
    assert Growth(k) * b == g * (b * 1.25);
    assert g * (b * 1.25) <= g * b';
  }

  lemma GrowthExceeds(b: real, bmax: real) returns (k: nat)
    requires 0.0 < b && 0.0 <= bmax
    ensures bmax < Growth(k) * b
  {
    var q := 4.0 * bmax / b;
    assert q >= 0.0;
    k := q.Floor + 1;
    GrowthAtLeast(k);
    assert k as real > q;
    assert k as real * b > q * b == 4.0 * bmax;
    assert Growth(k) * b >= (1.0 + k as real / 4.0) * b == b + k as real * b / 4.0;
  }

  lemma GrowthOrdered(k: nat, b: real)
    requires b > 0.0 && k > 0
    ensures b < Growth(k) * b
  {
    GrowthAtLeast(k);
    var g := Growth(k);
    assert (g - 1.0) * b > 0.0;
  }

  lemma GrowthShifts(k: nat, b: real, b': real)
    requires k > 0 && b' == b * 1.25
    ensures Growth(k - 1) * b' == Growth(k) * b
  {
  }

  // ---------------------------------------------------------------- the bound

  /** A round brings the verdict nearer by at least one, whichever way it goes. */
  lemma RoundProgress(pl: Plateau, best: real, bmax: real, k: nat)
    requires !pl.pipeFilled && pl.count < 3 && best <= bmax
    requires 0.0 < pl.fullBandwidth <= bmax < Growth(k) * pl.fullBandwidth
    ensures var pl' := PlateauRound(pl, best);
      || pl'.pipeFilled
      || (pl'.count < 3 && 0.0 < pl'.fullBandwidth <= bmax
          && exists k': nat :: bmax < Growth(k') * pl'.fullBandwidth && 3 * k' - pl'.count < 3 * k - pl.count)
  {
    assert k > 0;
    var pl' := PlateauRound(pl, best);
    if best >= pl.fullBandwidth * 1.25 {
      GrowthStep(k, pl.fullBandwidth, best, bmax);
      assert bmax < Growth(k - 1) * pl'.fullBandwidth;
    } else {
      assert bmax < Growth(k) * pl'.fullBandwidth;
    }
  }

  lemma {:induction false} FilledTakesNone(p: Params, m: Machine, es: seq<Event>)
    requires MachineInv(m) && m.plateau.pipeFilled
    ensures Rounds(p, m, es) == 0
    decreases |es|
  {
    hide OnEvent;
    if es == [] {
    } else {
      OnEventInv(p, m, es[0]);
      FilledTakesNone(p, OnEvent(p, m, es[0]), es[1..]);
    }
  }

  /** Startup terminates: from a positive plateau level b0, with all samples at most bmax < 1.25^k b0, no run takes
      more than 3k - count further rounds, and the pipe is declared filled with the last of them at the latest. */
  lemma {:induction false} StartupTerminates(p: Params, m: Machine, es: seq<Event>, bmax: real, k: nat)
    requires MachineInv(m) && m.mode == STARTUP && SamplesBounded(m.filter, bmax)
    requires forall e :: e in es ==> WithinBound(e, bmax)
    requires 0.0 < m.plateau.fullBandwidth <= bmax < Growth(k) * m.plateau.fullBandwidth
    ensures MachineInv(OnEvents(p, m, es)) && Rounds(p, m, es) <= 3 * k - m.plateau.count
    ensures OnEvents(p, m, es).mode != STARTUP || Rounds(p, m, es) < 3 * k - m.plateau.count
    decreases |es|
  {
    hide OnEvent, SamplesBounded, BestOf, PlateauRound;
    ModesOnlyAdvance(p, m, es);
    assert k > 0;
    if es == [] {
    } else {
      var e := es[0];
      var m' := OnEvent(p, m, e);
      OnEventInv(p, m, e);
      PlateauStep(p, m, e);
      EventBounded(p, m, e, bmax);
      if TakesRound(m, e) {
        RoundProgress(m.plateau, GetBestBw(m'), bmax, k);
        if m'.plateau.pipeFilled {
          FilledTakesNone(p, m', es[1..]);
          ModesOnlyAdvance(p, m', es[1..]);
        } else {
          var k': nat :| bmax < Growth(k') * m'.plateau.fullBandwidth
            && 3 * k' - m'.plateau.count < 3 * k - m.plateau.count;
          StartupTerminates(p, m', es[1..], bmax, k');
        }
      } else {
        StartupTerminates(p, m', es[1..], bmax, k);
      }
    }
  }

  // ---------------------------------------------------------------- from level zero

  /** A round at level zero that sees nothing leaves the level at zero and STARTUP as it is. */
  lemma UnseenStep(p: Params, m: Machine, e: Event)
    requires MachineInv(m) && m.mode == STARTUP && m.plateau.fullBandwidth == 0.0 && !SeesBandwidth(p, m, e)
    ensures var m' := OnEvent(p, m, e); MachineInv(m') && m'.mode == STARTUP && m'.plateau.fullBandwidth == 0.0
  {
    hide OnEvent, BestOf;
    OnEventInv(p, m, e);
    PlateauStep(p, m, e);
    BestOfIsMax(OnEvent(p, m, e).filter.slots);
  }

  /** A round that sees bandwidth leaves a positive level. */
  lemma SeenStep(p: Params, m: Machine, e: Event)
    requires MachineInv(m) && m.plateau.fullBandwidth >= 0.0 && SeesBandwidth(p, m, e)
    ensures var m' := OnEvent(p, m, e);
      && MachineInv(m') && m'.plateau.fullBandwidth > 0.0
      && (m.plateau.fullBandwidth == 0.0 ==>
            m'.mode == STARTUP && m'.plateau == Plateau(GetBestBw(m'), 0, false))
  {
    hide OnEvent, BestOf;
    OnEventInv(p, m, e);
    PlateauStep(p, m, e);
  }

  /** From level zero STARTUP goes on as long as no round sees bandwidth, whatever the samples are. From the
      first round that does, seeing b0, no run takes more than 3k further rounds if all samples are below
      1.25^k b0, and STARTUP is over with the last of them at the latest. */
  lemma {:induction false} StartupFromZero(p: Params, m: Machine, es: seq<Event>, bmax: real)
    requires MachineInv(m) && m.mode == STARTUP && m.plateau.fullBandwidth == 0.0
    requires SamplesBounded(m.filter, bmax) && bmax >= 0.0 && forall e :: e in es ==> WithinBound(e, bmax)
    ensures MachineInv(OnEvents(p, m, es))
    ensures FirstSeen(p, m, es) == |es| ==> OnEvents(p, m, es).mode == STARTUP
    ensures FirstSeen(p, m, es) < |es| ==>
      var i := FirstSeen(p, m, es);
      var m1 := OnEvents(p, m, es[..i+1]);
      && MachineInv(m1) && m1.mode == STARTUP && m1.plateau.fullBandwidth == GetBestBw(m1) > 0.0
      && forall k: nat :: bmax < Growth(k) * GetBestBw(m1) ==>
           && Rounds(p, m1, es[i+1..]) <= 3 * k
           && (OnEvents(p, m, es).mode != STARTUP || Rounds(p, m1, es[i+1..]) < 3 * k)
    decreases |es|
  {
    hide OnEvent, SamplesBounded, BestOf;
    ModesOnlyAdvance(p, m, es);
    if es == [] {
    } else {
      var m' := OnEvent(p, m, es[0]);
      EventBounded(p, m, es[0], bmax);
      if SeesBandwidth(p, m, es[0]) {
        SeenStep(p, m, es[0]);
        assert es[..1] == [es[0]] && es[..1][1..] == [];
        assert OnEvents(p, m', []) == m' && OnEvents(p, m, es[..1]) == OnEvents(p, m', es[..1][1..]);
        forall k: nat | bmax < Growth(k) * GetBestBw(m')
          ensures Rounds(p, m', es[1..]) <= 3 * k
          ensures OnEvents(p, m, es).mode != STARTUP || Rounds(p, m', es[1..]) < 3 * k
        {
          StartupTerminates(p, m', es[1..], bmax, k);
        }
      } else {
        UnseenStep(p, m, es[0]);
        StartupFromZero(p, m', es[1..], bmax);
        var i := FirstSeen(p, m', es[1..]);
        if i < |es[1..]| {
          assert es[..i+2][0] == es[0] && es[..i+2][1..] == es[1..][..i+1];
          assert es[1..][i+1..] == es[i+2..];
        }
      }
    }
  }

  // ---------------------------------------------------------------- endless runs

  /** The machine after `n` events of an endless run. */
  function MachineAt(p: Params, m: Machine, run: nat -> Event, n: nat): (m': Machine)
    requires MachineInv(m)
    ensures MachineInv(m')
  {
    if n == 0 then m
    else
      OnEventInv(p, MachineAt(p, m, run, n - 1), run(n - 1));
      OnEvent(p, MachineAt(p, m, run, n - 1), run(n - 1))
  }

  lemma AtNext(p: Params, m: Machine, run: nat -> Event, n: nat)
    requires MachineInv(m)
    ensures MachineAt(p, m, run, n + 1) == OnEvent(p, MachineAt(p, m, run, n), run(n))
  {
  }

  lemma AtStart(p: Params, m: Machine, run: nat -> Event)
    requires MachineInv(m)
    ensures MachineAt(p, m, run, 0) == m
  {
  }

  ghost predicate RoundAt(p: Params, m: Machine, run: nat -> Event, n: nat)
    requires MachineInv(m)
  {
    TakesRound(MachineAt(p, m, run, n), run(n))
  }

  /** The round at event `n` sees bandwidth. */
  ghost predicate SeesAt(p: Params, m: Machine, run: nat -> Event, n: nat)
    requires MachineInv(m)
  {
    SeesBandwidth(p, MachineAt(p, m, run, n), run(n))
  }

  ghost predicate InStartup(p: Params, m: Machine, run: nat -> Event, n: nat)
    requires MachineInv(m)
  {
    MachineAt(p, m, run, n).mode == STARTUP
  }

  /** Acknowledgements keep coming: in STARTUP there is always another round of the plateau test. */
  ghost predicate KeepsTesting(p: Params, m: Machine, run: nat -> Event)
    requires MachineInv(m)
  {
    forall n: nat :: InStartup(p, m, run, n) ==> exists n': nat :: n <= n' && RoundAt(p, m, run, n')
  }

  ghost predicate BoundedRun(m: Machine, run: nat -> Event, bmax: real) {
    && SamplesBounded(m.filter, bmax) && 0.0 <= m.plateau.fullBandwidth <= bmax
    && forall i: nat :: WithinBound(run(i), bmax)
  }

  lemma {:induction false} BoundedAt(p: Params, m: Machine, run: nat -> Event, bmax: real, n: nat)
    requires MachineInv(m) && BoundedRun(m, run, bmax)
    ensures var m' := MachineAt(p, m, run, n);
      SamplesBounded(m'.filter, bmax) && 0.0 <= m'.plateau.fullBandwidth <= bmax
  {
    hide OnEvent, SamplesBounded, BestOf, MachineAt;
    if n == 0 {
      AtStart(p, m, run);
    } else {
      BoundedAt(p, m, run, bmax, n - 1);
      AtNext(p, m, run, n - 1);
      EventBounded(p, MachineAt(p, m, run, n - 1), run(n - 1), bmax);
      PlateauStep(p, MachineAt(p, m, run, n - 1), run(n - 1));
    }
  }

  /** The next round at or after event `n`; the plateau test has not moved until then. */
  lemma {:induction false} NextRound(p: Params, m: Machine, run: nat -> Event, n: nat, some: nat) returns (next: nat)
    requires MachineInv(m) && n <= some && RoundAt(p, m, run, some)
    ensures n <= next && RoundAt(p, m, run, next)
    ensures MachineAt(p, m, run, next).plateau == MachineAt(p, m, run, n).plateau
    decreases some - n
  {
    hide OnEvent, TakesRound, MachineAt;
    if RoundAt(p, m, run, n) {
      next := n;
    } else {
      assert n != some;
      AtNext(p, m, run, n);
      PlateauStep(p, MachineAt(p, m, run, n), run(n));
      next := NextRound(p, m, run, n + 1, some);
    }
  }

  lemma {:induction false} EndsFromPositive(p: Params, m: Machine, run: nat -> Event, bmax: real, n: nat, k: nat) returns (end: nat)
    requires MachineInv(m) && BoundedRun(m, run, bmax) && KeepsTesting(p, m, run) && InStartup(p, m, run, n)
    requires 0.0 < MachineAt(p, m, run, n).plateau.fullBandwidth
    requires bmax < Growth(k) * MachineAt(p, m, run, n).plateau.fullBandwidth
    ensures !InStartup(p, m, run, end)
    decreases 3 * k - MachineAt(p, m, run, n).plateau.count
  {
    hide OnEvent, BoundedRun, BestOf, PlateauRound, MachineAt, RoundAt, SamplesBounded;
    var some: nat :| n <= some && RoundAt(p, m, run, some);
    var next := NextRound(p, m, run, n, some);
    RoundMoves(p, m, run, bmax, next);
    var at, after := MachineAt(p, m, run, next), MachineAt(p, m, run, next + 1);
    BoundedAt(p, m, run, bmax, n);
    RoundProgress(at.plateau, GetBestBw(after), bmax, k);
    if after.plateau.pipeFilled {
      end := next + 1;
    } else {
      var k': nat :| bmax < Growth(k') * after.plateau.fullBandwidth
        && 3 * k' - after.plateau.count < 3 * k - at.plateau.count;
      end := EndsFromPositive(p, m, run, bmax, next + 1, k');
    }
  }

  lemma RoundMoves(p: Params, m: Machine, run: nat -> Event, bmax: real, n: nat)
    requires MachineInv(m) && BoundedRun(m, run, bmax) && RoundAt(p, m, run, n)
    ensures var at, after := MachineAt(p, m, run, n), MachineAt(p, m, run, n + 1);
      after.plateau == PlateauRound(at.plateau, GetBestBw(after)) && GetBestBw(after) <= bmax
  {
    hide OnEvent, BestOf, PlateauRound, MachineAt, SamplesBounded;
    AtNext(p, m, run, n);
    BoundedAt(p, m, run, bmax, n);
    EventBounded(p, MachineAt(p, m, run, n), run(n), bmax);
    PlateauStep(p, MachineAt(p, m, run, n), run(n));
  }

  lemma {:induction false} StaysUnseen(p: Params, m: Machine, run: nat -> Event, n: nat)
    requires MachineInv(m) && m.mode == STARTUP && m.plateau.fullBandwidth == 0.0
    requires forall i: nat :: !SeesAt(p, m, run, i)
    ensures InStartup(p, m, run, n) && MachineAt(p, m, run, n).plateau.fullBandwidth == 0.0
  {
    hide OnEvent, SeesBandwidth, MachineAt;
    if n == 0 {
      AtStart(p, m, run);
    } else {
      StaysUnseen(p, m, run, n - 1);
      assert !SeesAt(p, m, run, n - 1);
      AtNext(p, m, run, n - 1);
      UnseenStep(p, MachineAt(p, m, run, n - 1), run(n - 1));
    }
  }

  lemma EndsOnceSeen(p: Params, m: Machine, run: nat -> Event, bmax: real, n: nat) returns (end: nat)
    requires MachineInv(m) && BoundedRun(m, run, bmax) && KeepsTesting(p, m, run) && SeesAt(p, m, run, n)
    ensures !InStartup(p, m, run, end)
  {
    hide OnEvent, SeesBandwidth, MachineAt, KeepsTesting, BoundedRun, SamplesBounded;
    BoundedAt(p, m, run, bmax, n);
    BoundedAt(p, m, run, bmax, n + 1);
    AtNext(p, m, run, n);
    SeenStep(p, MachineAt(p, m, run, n), run(n));
    end := n + 1;
    if InStartup(p, m, run, n + 1) {
      var k := GrowthExceeds(MachineAt(p, m, run, n + 1).plateau.fullBandwidth, bmax);
      end := EndsFromPositive(p, m, run, bmax, n + 1, k);
    }
  }

  /** Exactly when STARTUP ends: in an endless run from level zero with bounded samples in which the test is
      not starved of rounds, STARTUP is left if and only if some round sees bandwidth. */
  lemma StartupEndsIff(p: Params, m: Machine, run: nat -> Event, bmax: real)
    requires MachineInv(m) && m.mode == STARTUP && m.plateau.fullBandwidth == 0.0
    requires BoundedRun(m, run, bmax) && KeepsTesting(p, m, run)
    ensures (exists n: nat :: !InStartup(p, m, run, n)) <==> (exists n: nat :: SeesAt(p, m, run, n))
  {
    hide InStartup, SeesAt, KeepsTesting, BoundedRun;
    if n: nat :| SeesAt(p, m, run, n) {
      var end := EndsOnceSeen(p, m, run, bmax, n);
    } else {
      forall n: nat ensures InStartup(p, m, run, n) {
        StaysUnseen(p, m, run, n);
      }
    }
  }

  // ---------------------------------------------------------------- runs that never end STARTUP

  lemma {:induction false} OnEventsSplit(p: Params, m: Machine, a: seq<Event>, b: seq<Event>)
    requires MachineInv(m)
    ensures MachineInv(OnEvents(p, m, a)) && OnEvents(p, m, a + b) == OnEvents(p, OnEvents(p, m, a), b)
    ensures Rounds(p, m, a + b) == Rounds(p, m, a) + Rounds(p, OnEvents(p, m, a), b)
    decreases |a|
  {
    hide OnEvent;
    if a == [] {
      assert a + b == b;
    } else {
      OnEventInv(p, m, a[0]);
      OnEventsSplit(p, OnEvent(p, m, a[0]), a[1..], b);
      assert (a + b)[0] == a[0] && (a + b)[1..] == a[1..] + b;
    }
  }

  /** Without a positive sample STARTUP never ends: a level of zero is always beaten by a best of zero. */
  lemma {:induction false} StartupNeedsASample(p: Params, m: Machine, es: seq<Event>)
    requires MachineInv(m) && m.mode == STARTUP && m.plateau.fullBandwidth == 0.0 && SamplesBounded(m.filter, 0.0)
    requires forall e :: e in es ==> WithinBound(e, 0.0)
    ensures MachineInv(OnEvents(p, m, es)) && OnEvents(p, m, es).mode == STARTUP
    decreases |es|
  {
    hide OnEvent, SamplesBounded, BestOf;
    if es == [] {
    } else {
      EventBounded(p, m, es[0], 0.0);
      UnseenStep(p, m, es[0]);
      StartupNeedsASample(p, OnEvent(p, m, es[0]), es[1..]);
    }
  }

  /** Acknowledgements at the given times with samples of zero. */
  function Silence(times: seq<nat>): seq<Event>
    decreases |times|
  {
    if times == [] then [] else [Acked(AckEvent(times[0], 0.0, 0))] + Silence(times[1..])
  }

  /** An acknowledgement before the first round is due that closes its window. */
  lemma QuietStep(p: Params, m: Machine, e: AckEvent)
    requires MachineInv(m) && m.mode == STARTUP && !m.rttPassed && m.filter.current == []
    requires m.filter.windowEnd + p.baseRtt < e.now <= m.rttMark
    ensures OnEvent(p, m, Acked(e)) == m.(filter := Filter(m.filter.slots[m.filter.index := e.bw], [],
      (m.filter.index + 1) % WINDOWS, m.filter.windowEnd + p.baseRtt))
  {
    hide BestOf;
  }

  /** Silence overwrites the slots one by one, the one at index zero last. */
  lemma {:induction false} SilenceClears(p: Params, m: Machine, times: seq<nat>)
    requires MachineInv(m) && m.mode == STARTUP && !m.rttPassed && m.filter.current == [] && 1 <= |times| <= WINDOWS
    requires forall i :: 1 <= i < WINDOWS ==> m.filter.slots[i] == 0.0
    requires m.filter.index == if |times| == 1 then 0 else WINDOWS + 1 - |times|
    requires forall i :: 0 <= i < |times| ==> m.filter.windowEnd + |times| * p.baseRtt < times[i] <= m.rttMark
    ensures var m' := OnEvents(p, m, Silence(times));
      && MachineInv(m') && m'.mode == STARTUP && m'.plateau == m.plateau
      && SamplesBounded(m'.filter, 0.0)
    decreases |times|
  {
    hide OnEvent, BestOf;
    var n, e := |times|, AckEvent(times[0], 0.0, 0);
    var m' := OnEvent(p, m, Acked(e));
    assert n * p.baseRtt == (n - 1) * p.baseRtt + p.baseRtt && (n - 1) * p.baseRtt >= 0;
    QuietStep(p, m, e);
    OnEventInv(p, m, Acked(e));
    assert Silence(times)[0] == Acked(e) && Silence(times)[1..] == Silence(times[1..]);
    if n == 1 {
      assert OnEvents(p, m', []) == m';
    } else {
      assert forall i :: 0 <= i < n - 1 ==> times[1..][i] == times[i+1];
      SilenceClears(p, m', times[1..]);
    }
  }

  /** A positive sample is not enough: for every sample and every late enough start, ten samples of zero at any ten times
      within the round trip that follows rotate it out of the slots before the first round, and then STARTUP
      goes on for any further samples that are not positive. */
  lemma SampleEvicted(p: Params, sample: real, t: nat, times: seq<nat>, more: seq<Event>)
    requires sample > 0.0 && t > 11 * p.baseRtt && |times| == WINDOWS
    requires forall i :: 0 <= i < |times| ==> t <= times[i] <= t + p.baseRtt
    requires forall e :: e in more ==> WithinBound(e, 0.0)
    ensures var es := [Acked(AckEvent(t, sample, 0))] + Silence(times);
      OnEvents(p, InitMachine(), es + more).mode == STARTUP
  {
    hide OnEvent, BestOf, SamplesBounded;
    var m, first := InitMachine(), Acked(AckEvent(t, sample, 0));
    var es := [first] + Silence(times);
    var m1 := OnEvent(p, m, first);
    FirstSample(p, sample, t);
    OnEventInv(p, m, first);
    SilenceClears(p, m1, times);
    assert es[0] == first && es[1..] == Silence(times);
    OnEventsSplit(p, m, es, more);
    StartupNeedsASample(p, OnEvents(p, m, es), more);
  }

  lemma FirstSample(p: Params, sample: real, t: nat)
    requires t > p.baseRtt
    ensures OnEvent(p, InitMachine(), Acked(AckEvent(t, sample, 0))) == InitMachine().(
      filter := Filter(InitFilter().slots[0 := sample], [], 1, p.baseRtt), rttMark := t + p.baseRtt, rttPassed := false)
  {
    hide BestOf;
  }

  // ---------------------------------------------------------------- the bound is tight

  /** Two acknowledgements with the same sample: the first sets the time of the round, the second takes it. */
  function Pair(p: Params, t: nat, b: real): seq<Event> {
    [Acked(AckEvent(t, b, 0)), Acked(AckEvent(t + p.baseRtt + 1, b, 0))]
  }

  /** The machine right after a round, with no sample above `b`. */
  ghost predicate AfterRound(m: Machine, b: real) {
    MachineInv(m) && m.mode == STARTUP && m.rttPassed && SamplesBounded(m.filter, b) && b > 0.0
  }

  lemma BestIsSample(p: Params, m: Machine, e: AckEvent)
    requires MachineInv(m) && SamplesBounded(m.filter, e.bw) && e.bw >= 0.0
    ensures GetBestBw(OnEvent(p, m, Acked(e))) == e.bw
    ensures SamplesBounded(OnEvent(p, m, Acked(e)).filter, e.bw)
  {
    hide OnAck, BestOf;
    OnAckInv(p, m, e);
    EventBounded(p, m, Acked(e), e.bw);
    MaxOfIsMax(m.filter.current + [e.bw]);
    assert e.bw in m.filter.current + [e.bw];
    BestOfIsMax(OnAck(p, m, e).filter.slots);
    assert OnAck(p, m, e).filter.slots[m.filter.index] == e.bw;
  }

  lemma ArmStep(p: Params, m: Machine, e: AckEvent)
    requires MachineInv(m) && m.mode == STARTUP && m.rttPassed
    ensures var m' := OnEvent(p, m, Acked(e));
      m'.plateau == m.plateau && m'.mode == STARTUP && !m'.rttPassed && m'.rttMark == e.now + p.baseRtt
  {
    hide BestOf, UpdateFilter;
  }

  lemma RoundStep(p: Params, m: Machine, e: AckEvent)
    requires MachineInv(m) && m.mode == STARTUP && !m.rttPassed && e.now > m.rttMark
    ensures OnEvent(p, m, Acked(e)).rttPassed && TakesRound(m, Acked(e))
  {
    hide BestOf, UpdateFilter;
  }

  lemma PairRound(p: Params, m: Machine, t: nat, b: real)
    requires AfterRound(m, b)
    ensures var m' := OnEvents(p, m, Pair(p, t, b));
      && MachineInv(m') && m'.plateau == PlateauRound(m.plateau, b) && Rounds(p, m, Pair(p, t, b)) == 1
      && (!m'.plateau.pipeFilled ==> AfterRound(m', b))
  {
    hide OnEvent, BestOf, SamplesBounded, PlateauRound;
    var e1, e2 := AckEvent(t, b, 0), AckEvent(t + p.baseRtt + 1, b, 0);
    var m1 := OnEvent(p, m, Acked(e1));
    OnEventInv(p, m, Acked(e1));
    ArmStep(p, m, e1);
    BestIsSample(p, m, e1);
    OnEventInv(p, m1, Acked(e2));
    RoundStep(p, m1, e2);
    BestIsSample(p, m1, e2);
    PlateauStep(p, m1, Acked(e2));
    var m2 := OnEvent(p, m1, Acked(e2));
    var es := Pair(p, t, b);
    assert es[1..] == [Acked(e2)] && es[1..][1..] == [];
    assert OnEvents(p, m2, []) == m2 && Rounds(p, m2, []) == 0;
    assert OnEvents(p, m1, es[1..]) == m2 && Rounds(p, m1, es[1..]) == 1;
  }

  lemma TwoIdleRounds(p: Params, m: Machine, t: nat, b: real)
    requires AfterRound(m, b) && m.plateau == Plateau(b, 0, false)
    ensures var es := Pair(p, t, b) + Pair(p, t + 2 * p.baseRtt + 2, b);
      && MachineInv(OnEvents(p, m, es)) && OnEvents(p, m, es).plateau == Plateau(b, 2, false)
      && AfterRound(OnEvents(p, m, es), b) && Rounds(p, m, es) == 2
  {
    hide OnEvents, Rounds, Pair, SamplesBounded;
    var t' := t + 2 * p.baseRtt + 2;
    PairRound(p, m, t, b);
    OnEventsSplit(p, m, Pair(p, t, b), Pair(p, t', b));
    PairRound(p, OnEvents(p, m, Pair(p, t, b)), t', b);
  }

  lemma {:induction false} TightFrom(p: Params, m: Machine, t: nat, b0: real, k: nat) returns (es: seq<Event>, bmax: real)
    requires AfterRound(m, b0) && m.plateau == Plateau(b0, 0, false) && k > 0
    ensures MachineInv(OnEvents(p, m, es)) && OnEvents(p, m, es).mode == STARTUP
    ensures Rounds(p, m, es) == 3 * k - 1
    ensures b0 <= bmax < Growth(k) * b0 && forall e :: e in es ==> e.Acked? && WithinBound(e, bmax)
    decreases k
  {
    hide OnEvents, Rounds, SamplesBounded;
    var idle := Pair(p, t, b0) + Pair(p, t + 2 * p.baseRtt + 2, b0);
    TwoIdleRounds(p, m, t, b0);
    GrowthOrdered(k, b0);
    if k == 1 {
      es, bmax := idle, b0;
    } else {
      var m2, b1, t2 := OnEvents(p, m, idle), b0 * 1.25, t + 4 * p.baseRtt + 4;
      LargerBound(m2, b0, b1);
      PairRound(p, m2, t2, b1);
      var m3 := OnEvents(p, m2, Pair(p, t2, b1));
      GrowthShifts(k, b0, b1);
      var rest;
      rest, bmax := TightFrom(p, m3, t2 + 2 * p.baseRtt + 2, b1, k - 1);
      OnEventsSplit(p, m2, Pair(p, t2, b1), rest);
      OnEventsSplit(p, m, idle, Pair(p, t2, b1) + rest);
      es := idle + (Pair(p, t2, b1) + rest);
    }
  }

  lemma LargerBound(m: Machine, b: real, b': real)
    requires AfterRound(m, b) && b <= b'
    ensures AfterRound(m, b')
  {
  }

  /** The bound cannot be improved: for every b0 and k there are acknowledgements, from the initial machine on,
      whose first round sees b0 and that take 3k - 1 further rounds with samples below 1.25^k b0 in STARTUP. */
  lemma StartupBoundIsTight(p: Params, b0: real, k: nat) returns (first: seq<Event>, es: seq<Event>, bmax: real)
    requires b0 > 0.0 && k > 0
    ensures OnEvents(p, InitMachine(), first).plateau == Plateau(b0, 0, false)
    ensures Rounds(p, InitMachine(), first) == 1 && Rounds(p, OnEvents(p, InitMachine(), first), es) == 3 * k - 1
    ensures bmax < Growth(k) * b0 && forall e :: e in first + es ==> e.Acked? && WithinBound(e, bmax)
    ensures OnEvents(p, InitMachine(), first + es).mode == STARTUP
  {
    hide OnEvents, Rounds;
    first := Pair(p, 0, b0);
    PairRound(p, InitMachine(), 0, b0);
    hide SamplesBounded;
    var m := OnEvents(p, InitMachine(), first);
    es, bmax := TightFrom(p, m, 2 * p.baseRtt + 2, b0, k);
    OnEventsSplit(p, InitMachine(), first, es);
  }
}
