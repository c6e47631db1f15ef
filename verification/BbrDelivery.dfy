/** The bandwidth samples as the BBR source computes them from the bytes delivered, and for which packet sizes
    STARTUP can go on for ever. */
module BbrDelivery {
  import opened BbrModes
  import opened BbrStartup

  const HEADER: nat := 64
  const SLACK: nat := 4153   // bytes taken off each sample

  /** The sample of an acknowledgement: `before` bytes were counted as delivered when it arrived, `echo` when its packet
      was sent, and `rtt` picoseconds passed. */
  function DeliveryRate(p: Params, before: nat, echo: nat, rtt: nat): real
    requires rtt >= 1000
  {
    var delivered := before + p.mss + HEADER - (echo + SLACK);
    if delivered > 0 then (delivered * 8) as real / (rtt / 1000) as real else 0.0
  }

  /** A sample is positive exactly if more bytes than the slack were delivered since the packet was sent. */
  lemma SampleIsPositiveIff(p: Params, before: nat, echo: nat, rtt: nat)
    requires rtt >= 1000
    ensures DeliveryRate(p, before, echo, rtt) >= 0.0
    ensures DeliveryRate(p, before, echo, rtt) > 0.0 <==> before + p.mss + 64 - echo > 4153
  {
    var delivered := before + p.mss + HEADER - (echo + SLACK);
    if delivered > 0 {
      Quotient((delivered * 8) as real, (rtt / 1000) as real);
    }
  }

  /** A sample times the nanoseconds of the round trip is the bits delivered beyond the slack since the packet was sent. */
  lemma SampleMeasuresBits(p: Params, before: nat, echo: nat, rtt: nat)
    requires rtt >= 1000
    ensures DeliveryRate(p, before, echo, rtt) * (rtt / 1000) as real ==
      if before + p.mss + 64 - echo > 4153 then 8.0 * (before + p.mss + 64 - echo - 4153) as real else 0.0
  {
  }

  lemma Quotient(x: real, y: real)
    requires x > 0.0 && y > 0.0
    ensures x / y > 0.0
  {
  }

  /** `bw` is the sample of some packet sent before. */
  ghost predicate SampleOf(p: Params, before: nat, bw: real) {
    exists echo: nat, rtt: nat :: echo <= before && rtt >= 1000 && bw == DeliveryRate(p, before, echo, rtt)
  }

  /** The bytes counted as delivered before event `n` of a run. */
  function Delivered(p: Params, run: nat -> Event, n: nat): nat {
    if n == 0 then 0
    else Delivered(p, run, n - 1) + if run(n - 1).Acked? then p.mss + HEADER else 0
  }

  /** Every sample of the run is one the source computes. */
  ghost predicate Measured(p: Params, run: nat -> Event) {
    forall n: nat :: run(n).Acked? ==> SampleOf(p, Delivered(p, run, n), run(n).ack.bw)
  }

  // ---------------------------------------------------------------- large packets

  lemma BestAtLeastSample(p: Params, m: Machine, e: AckEvent)
    requires MachineInv(m)
    ensures GetBestBw(OnEvent(p, m, Acked(e))) >= e.bw
  {
    hide OnAck, BestOf;
    OnAckInv(p, m, e);
    MaxOfIsMax(m.filter.current + [e.bw]);
    assert e.bw in m.filter.current + [e.bw];
    BestOfIsMax(OnAck(p, m, e).filter.slots);
    assert OnAck(p, m, e).filter.slots[m.filter.index] == MaxOf(m.filter.current + [e.bw]);
  }

  /** Packets that are larger than the slack with their header make every sample positive, and then any run whose rounds
      keep coming leaves STARTUP. */
  lemma LargePacketsLeave(p: Params, run: nat -> Event, bmax: real) returns (end: nat)
    requires p.mss + HEADER > SLACK && Measured(p, run)
    requires BoundedRun(InitMachine(), run, bmax) && KeepsTesting(p, InitMachine(), run)
    ensures !InStartup(p, InitMachine(), run, end)
  {
    hide OnEvent, BestOf, BoundedRun, MachineAt;
    var m := InitMachine();
    assert InStartup(p, m, run, 0) by { AtStart(p, m, run); }
    var n: nat :| 0 <= n && RoundAt(p, m, run, n);
    hide KeepsTesting;
    var e := run(n).ack;
    assert SampleOf(p, Delivered(p, run, n), e.bw);
    var echo: nat, rtt: nat :| echo <= Delivered(p, run, n) && rtt >= 1000 && e.bw == DeliveryRate(p, Delivered(p, run, n), echo, rtt);
    SampleIsPositiveIff(p, Delivered(p, run, n), echo, rtt);
    BestAtLeastSample(p, MachineAt(p, m, run, n), e);
    assert SeesAt(p, m, run, n);
    end := EndsOnceSeen(p, m, run, bmax, n);
  }

  // ---------------------------------------------------------------- small packets

  /** One packet in flight at a time, acknowledged at regular times with a sample of zero. */
  function Time(p: Params, n: nat): nat { (n + 1) * (p.baseRtt + 1) }

  function OneAtATime(p: Params): nat -> Event {
    (n: nat) => Acked(AckEvent(Time(p, n), 0.0, 0))
  }

  lemma TimeNext(p: Params, n: nat)
    ensures Time(p, n + 1) == Time(p, n) + p.baseRtt + 1
  {
  }

  lemma OneAtATimeMeasured(p: Params)
    requires p.mss + HEADER <= SLACK
    ensures Measured(p, OneAtATime(p))
  {
    var run := OneAtATime(p);
    forall n: nat | run(n).Acked? ensures SampleOf(p, Delivered(p, run, n), run(n).ack.bw) {
      var before := Delivered(p, run, n);
      assert DeliveryRate(p, before, before, 1000) == 0.0;
    }
  }

  lemma {:induction false} OneAtATimePaced(p: Params, n: nat)
    ensures var m := MachineAt(p, InitMachine(), OneAtATime(p), n);
      && m.mode == STARTUP && m.plateau.fullBandwidth == 0.0 && SamplesBounded(m.filter, 0.0)
      && (m.rttPassed || m.rttMark < Time(p, n))
  {
    hide OnEvent, BestOf, MachineAt, Time, SamplesBounded;
    var m, run := InitMachine(), OneAtATime(p);
    if n == 0 {
      AtStart(p, m, run);
      assert SamplesBounded(m.filter, 0.0) by { NoSamples(); }
    } else {
      OneAtATimePaced(p, n - 1);
      AtNext(p, m, run, n - 1);
      TimeNext(p, n - 1);
      var at, e := MachineAt(p, m, run, n - 1), run(n - 1);
      EventBounded(p, at, e, 0.0);
      UnseenStep(p, at, e);
      if at.rttPassed {
        ArmStep(p, at, e.ack);
      } else {
        RoundStep(p, at, e.ack);
      }
    }
  }

  lemma NoSamples()
    ensures SamplesBounded(InitMachine().filter, 0.0)
  {
  }

  lemma OneAtATimeTests(p: Params)
    ensures KeepsTesting(p, InitMachine(), OneAtATime(p))
  {
    hide OnEvent, BestOf, MachineAt, Time;
    var m, run := InitMachine(), OneAtATime(p);
    forall n: nat | InStartup(p, m, run, n) ensures exists n': nat :: n <= n' && RoundAt(p, m, run, n') {
      OneAtATimePaced(p, n);
      OneAtATimePaced(p, n + 1);
      AtNext(p, m, run, n);
      if MachineAt(p, m, run, n).rttPassed {
        ArmStep(p, MachineAt(p, m, run, n), run(n).ack);
        assert RoundAt(p, m, run, n + 1);
      } else {
        assert RoundAt(p, m, run, n);
      }
    }
  }

  /** Exactly for which packet sizes STARTUP always ends: in all endless runs from the initial machine with samples as they are
      computed, bounded, and rounds that keep coming, STARTUP is left if and only if a packet with its header is larger
      than the slack. For smaller ones a flow with one packet in flight at a time stays in it. */
  lemma StartupAlwaysEndsIff(p: Params)
    ensures (forall run: nat -> Event, bmax: real ::
              Measured(p, run) && BoundedRun(InitMachine(), run, bmax) && KeepsTesting(p, InitMachine(), run) ==>
                exists n: nat :: !InStartup(p, InitMachine(), run, n)) <==> p.mss + 64 > 4153
  {
    var m := InitMachine();
    hide Measured, BoundedRun, KeepsTesting, InStartup, InitMachine, MachineInv;
    if p.mss + HEADER > SLACK {
      forall run: nat -> Event, bmax: real | Measured(p, run) && BoundedRun(m, run, bmax) && KeepsTesting(p, m, run)
        ensures exists n: nat :: !InStartup(p, m, run, n)
      {
        var end := LargePacketsLeave(p, run, bmax);
      }
    } else {
      var run := OneAtATime(p);
      OneAtATimeMeasured(p);
      OneAtATimeTests(p);
      OneAtATimeStays(p);
      assert Measured(p, run) && BoundedRun(m, run, 0.0) && KeepsTesting(p, m, run);
    }
  }

  lemma OneAtATimeStays(p: Params)
    ensures BoundedRun(InitMachine(), OneAtATime(p), 0.0)
    ensures forall n: nat :: InStartup(p, InitMachine(), OneAtATime(p), n)
  {
    hide MachineAt, SamplesBounded;
    NoSamples();
    forall n: nat ensures InStartup(p, InitMachine(), OneAtATime(p), n) {
      OneAtATimePaced(p, n);
    }
  }

  // ---------------------------------------------------------------- eviction

  /** The sample is zero of the tenth acknowledgement after one that found `before` bytes delivered. */
  predicate TenthIsZero(p: Params, before: nat, echo: nat, rtt: nat) {
    rtt >= 1000 && DeliveryRate(p, before + WINDOWS * (p.mss + HEADER), echo, rtt) == 0.0
  }

  /** The tenth acknowledgement after another, of a packet sent before that one arrived, can bring a sample of zero exactly if
      eleven packets with their headers fit into the slack: only then can zeros evict a sample before a round. */
  lemma TenZerosIff(p: Params, before: nat)
    ensures (exists echo: nat, rtt: nat :: echo <= before && TenthIsZero(p, before, echo, rtt)) <==>
      11 * (p.mss + HEADER) <= SLACK
  {
    var after := before + WINDOWS * (p.mss + HEADER);
    if 11 * (p.mss + HEADER) <= SLACK {
      SampleIsPositiveIff(p, after, before, 1000);
      assert TenthIsZero(p, before, before, 1000);
    } else {
      forall echo: nat, rtt: nat | echo <= before ensures !TenthIsZero(p, before, echo, rtt) {
        if rtt >= 1000 {
          SampleIsPositiveIff(p, after, echo, rtt);
        }
      }
    }
  }
}
