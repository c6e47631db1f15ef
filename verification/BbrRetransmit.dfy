/** What one activation of the retransmission loop does to every packet of the list. */
module BbrRetransmit {
  import opened Basics
  import opened BbrTypes
  import opened BbrSender
  import R = BbrRepair

  /** A timeout is pending, and the packet, neither acknowledged nor negatively acknowledged, is due by now plus the margin. */
  predicate Expired(cfg: Config, pending: bool, sp: SentPacket, clock: Clock) {
    pending && !sp.acked && !sp.nacked && sp.timer <= clock.now + cfg.rtoMargin
  }

  function Flagged(cfg: Config, pending: bool, sp: SentPacket, clock: Clock): SentPacket {
    if Expired(cfg, pending, sp, clock) then sp.(timedOut := true) else sp
  }

  /** The packet sent again, with its timer started anew. */
  function Renewed(cfg: Config, sp: SentPacket, clock: Clock): SentPacket {
    sp.(nacked := false, timer := clock.now + clock.service + cfg.rto, timedOut := false)
  }

  /** The packets from `from` up to `to` that were sent again, in order. */
  function Resent(sent: seq<SentPacket>, again: seq<bool>, from: nat, to: nat): seq<nat>
    requires |again| == |sent| && from <= to <= |sent|
    decreases |sent| - from
  {
    if from == to then [] else (if again[from] then [sent[from].seqno] else []) + Resent(sent, again, from + 1, to)
  }

  ghost predicate AnyExpired(cfg: Config, s: Sender, from: nat, to: nat, clock: Clock) {
    exists k :: from <= k < to && k < |s.sent| && Expired(cfg, s.rtxTimeoutPending, s.sent[k], clock)
  }

  /** The window when packet `j` has its turn: one packet as soon as any has timed out. */
  ghost function WindowAt(cfg: Config, s: Sender, from: nat, j: nat, clock: Clock): nat {
    if AnyExpired(cfg, s, from, j, clock) then cfg.mss else s.cwnd
  }

  /** The list when packet `j` has its turn. */
  function ListAt(cfg: Config, s: Sender, s': Sender, j: nat, clock: Clock): seq<SentPacket>
    requires j < |s.sent| == |s'.sent|
  {
    s'.sent[..j] + [Flagged(cfg, s.rtxTimeoutPending, s.sent[j], clock)] + s.sent[j+1..]
  }

  /** A packet is sent again exactly if it timed out or was negatively acknowledged, and at its turn the window
      has room and the pacer lets it out. */
  ghost predicate AgainIff(cfg: Config, s: Sender, s': Sender, again: seq<bool>, from: nat, j: nat, clock: Clock)
    requires |again| == |s.sent| == |s'.sent| && from <= j < |s.sent|
  {
    again[j] <==>
      && R.Needy(Flagged(cfg, s.rtxTimeoutPending, s.sent[j], clock))
      && OutstandingBytes(cfg.mss, ListAt(cfg, s, s', j, clock)) < WindowAt(cfg, s, from, j + 1, clock)
      && |Resent(s.sent, again, from, j)| < s.permits
  }

  function Entry(cfg: Config, pending: bool, sp: SentPacket, again: bool, clock: Clock): SentPacket {
    if again then Renewed(cfg, sp, clock) else Flagged(cfg, pending, sp, clock)
  }

  ghost predicate AnyRefused(cfg: Config, s: Sender, again: seq<bool>, from: nat, clock: Clock)
    requires |again| == |s.sent|
  {
    exists j :: from <= j < |s.sent| && !again[j] && R.Needy(Flagged(cfg, s.rtxTimeoutPending, s.sent[j], clock))
  }

  /** What the loop makes of the packets from `from` on. */
  ghost predicate Retransmits(cfg: Config, s: Sender, s': Sender, again: seq<bool>, from: nat, clock: Clock)
    requires from <= |s.sent|
  {
    var n := |s.sent|;
    && |again| == |s'.sent| == n && s'.sent[..from] == s.sent[..from]
    && (forall j :: from <= j < n ==> s'.sent[j] == Entry(cfg, s.rtxTimeoutPending, s.sent[j], again[j], clock))
    && (forall j :: from <= j < n ==> AgainIff(cfg, s, s', again, from, j, clock))
    && s'.wire == s.wire + Resent(s.sent, again, from, n)
    && s'.permits + |Resent(s.sent, again, from, n)| == s.permits
    && s'.cwnd == WindowAt(cfg, s, from, n, clock)
    && (s'.rtxPending <==> s.rtxPending || AnyRefused(cfg, s, again, from, clock))
    && !s'.rtxTimeoutPending && s'.highestSent == s.highestSent && s'.flowFinished == s.flowFinished
  }

  function Turn(cfg: Config, s: Sender, i: nat, clock: Clock): Sender
    requires i < |s.sent|
  {
    RetransmitOne(cfg, TimeoutOne(cfg, s, i, clock), i, clock)
  }

  predicate TurnSends(cfg: Config, s: Sender, i: nat, clock: Clock)
    requires i < |s.sent|
  {
    var sp, s1 := Flagged(cfg, s.rtxTimeoutPending, s.sent[i], clock), TimeoutOne(cfg, s, i, clock);
    R.Needy(sp) && CanResend(cfg, s1)
  }

  /** The packet's turn. */
  ghost predicate TurnDoes(cfg: Config, s: Sender, s': Sender, i: nat, again: bool, clock: Clock)
    requires i < |s.sent|
  {
    var sp := s.sent[i];
    var flagged := Flagged(cfg, s.rtxTimeoutPending, sp, clock);
    var cwnd := if Expired(cfg, s.rtxTimeoutPending, sp, clock) then cfg.mss else s.cwnd;
    && s'.sent == s.sent[i := Entry(cfg, s.rtxTimeoutPending, sp, again, clock)]
    && s'.cwnd == cwnd && s'.rtxTimeoutPending == s.rtxTimeoutPending
    && s'.wire == s.wire + (if again then [sp.seqno] else [])
    && s'.permits + (if again then 1 else 0) == s.permits
    && (s'.rtxPending <==> s.rtxPending || (R.Needy(flagged) && !again))
    && s'.highestSent == s.highestSent && s'.flowFinished == s.flowFinished
    && (again <==> R.Needy(flagged) && OutstandingBytes(cfg.mss, s.sent[i := flagged]) < cwnd && s.permits > 0)
  }

  lemma TurnEffect(cfg: Config, s: Sender, i: nat, clock: Clock)
    requires i < |s.sent|
    ensures TurnDoes(cfg, s, Turn(cfg, s, i, clock), i, TurnSends(cfg, s, i, clock), clock)
  {
    hide OutstandingBytes, MinTimeout;
    var sp := s.sent[i];
    assert s.sent[i := sp] == s.sent;
    assert TimeoutOne(cfg, s, i, clock).sent == s.sent[i := Flagged(cfg, s.rtxTimeoutPending, sp, clock)];
  }

  lemma ResentFirst(sent: seq<SentPacket>, again: seq<bool>, from: nat, to: nat)
    requires |again| == |sent| && from < to <= |sent|
    ensures Resent(sent, again, from, to) == (if again[from] then [sent[from].seqno] else []) + Resent(sent, again, from + 1, to)
  {
  }

  lemma {:induction false} ResentSame(sent: seq<SentPacket>, again: seq<bool>, sent': seq<SentPacket>, again': seq<bool>, from: nat, to: nat)
    requires |again| == |sent| == |sent'| == |again'| && from <= to <= |sent|
    requires forall j :: from <= j < to ==> sent'[j].seqno == sent[j].seqno && again'[j] == again[j]
    ensures Resent(sent', again', from, to) == Resent(sent, again, from, to)
    decreases |sent| - from
  {
    if from == to {
    } else {
      ResentSame(sent, again, sent', again', from + 1, to);
    }
  }

  lemma AnyExpiredFirst(cfg: Config, s: Sender, s1: Sender, i: nat, to: nat, clock: Clock)
    requires i < |s.sent| == |s1.sent| && i < to && s1.rtxTimeoutPending == s.rtxTimeoutPending
    requires forall j :: i < j < |s.sent| ==> s1.sent[j] == s.sent[j]
    ensures AnyExpired(cfg, s, i, to, clock) <==>
      Expired(cfg, s.rtxTimeoutPending, s.sent[i], clock) || AnyExpired(cfg, s1, i + 1, to, clock)
  {
    hide Expired;
  }

  /** The first turn and the turns after it, put together. */
  ghost predicate Turns(cfg: Config, s: Sender, s1: Sender, s': Sender, again: seq<bool>, rest: seq<bool>, i: nat, clock: Clock)
    requires i < |s.sent|
  {
    && |again| == |s.sent| && TurnDoes(cfg, s, s1, i, again[i], clock)
    && Retransmits(cfg, s1, s', rest, i + 1, clock) && again == rest[i := again[i]]
  }

  lemma TurnsWindow(cfg: Config, s: Sender, s1: Sender, s': Sender, again: seq<bool>, rest: seq<bool>, i: nat, to: nat, clock: Clock)
    requires i < to <= |s.sent| && Turns(cfg, s, s1, s', again, rest, i, clock)
    ensures WindowAt(cfg, s1, i + 1, to, clock) == WindowAt(cfg, s, i, to, clock)
  {
    hide OutstandingBytes, Flagged, Expired, Renewed, Entry, AnyExpired, AnyRefused, AgainIff, Resent;
    AnyExpiredFirst(cfg, s, s1, i, to, clock);
  }

  lemma TurnsResent(cfg: Config, s: Sender, s1: Sender, s': Sender, again: seq<bool>, rest: seq<bool>, i: nat, to: nat, clock: Clock)
    requires i < to <= |s.sent| && Turns(cfg, s, s1, s', again, rest, i, clock)
    ensures Resent(s.sent, again, i, to) == (if again[i] then [s.sent[i].seqno] else []) + Resent(s1.sent, rest, i + 1, to)
  {
    hide OutstandingBytes, Flagged, Expired, Renewed, Entry, AnyExpired, AnyRefused, AgainIff, Resent, WindowAt;
    ResentFirst(s.sent, again, i, to);
    ResentSame(s1.sent, rest, s.sent, again, i + 1, to);
  }

  lemma TurnsList(cfg: Config, s: Sender, s1: Sender, s': Sender, again: seq<bool>, rest: seq<bool>, i: nat, clock: Clock)
    requires i < |s.sent| && Turns(cfg, s, s1, s', again, rest, i, clock)
    ensures |again| == |s'.sent| == |s.sent| && s'.sent[..i] == s.sent[..i]
    ensures forall j :: i <= j < |s.sent| ==> s'.sent[j] == Entry(cfg, s.rtxTimeoutPending, s.sent[j], again[j], clock)
    ensures ListAt(cfg, s, s', i, clock) == s.sent[i := Flagged(cfg, s.rtxTimeoutPending, s.sent[i], clock)]
    ensures forall j :: i < j < |s.sent| ==> ListAt(cfg, s1, s', j, clock) == ListAt(cfg, s, s', j, clock)
  {
    hide OutstandingBytes, Flagged, Expired, Renewed, Entry, AnyExpired, AnyRefused, AgainIff, Resent, WindowAt;
    assert s'.sent[..i] == s'.sent[..i+1][..i];
    assert s'.sent[i] == s'.sent[..i+1][i];
    forall j | i < j < |s.sent| ensures ListAt(cfg, s1, s', j, clock) == ListAt(cfg, s, s', j, clock) {
      assert s1.sent[j+1..] == s.sent[j+1..];
    }
  }

  lemma TurnsAgain(cfg: Config, s: Sender, s1: Sender, s': Sender, again: seq<bool>, rest: seq<bool>, i: nat, j: nat, clock: Clock)
    requires i <= j < |s.sent| && Turns(cfg, s, s1, s', again, rest, i, clock) && |s'.sent| == |s.sent|
    ensures AgainIff(cfg, s, s', again, i, j, clock)
  {
    hide OutstandingBytes, Flagged, Expired, Renewed, Entry, AnyExpired, AnyRefused, Resent, ListAt, R.Needy;
    TurnsList(cfg, s, s1, s', again, rest, i, clock);
    if j == i {
      FirstWindow(cfg, s, i, clock);
      ResentNone(s.sent, again, i);
    } else {
      assert AgainIff(cfg, s1, s', rest, i + 1, j, clock);
      TurnsWindow(cfg, s, s1, s', again, rest, i, j + 1, clock);
      TurnsResent(cfg, s, s1, s', again, rest, i, j, clock);
    }
  }

  lemma FirstWindow(cfg: Config, s: Sender, i: nat, clock: Clock)
    requires i < |s.sent|
    ensures WindowAt(cfg, s, i, i + 1, clock) ==
      if Expired(cfg, s.rtxTimeoutPending, s.sent[i], clock) then cfg.mss else s.cwnd
  {
    hide Expired;
  }

  lemma ResentNone(sent: seq<SentPacket>, again: seq<bool>, i: nat)
    requires |again| == |sent| && i <= |sent|
    ensures Resent(sent, again, i, i) == []
  {
  }

  lemma TurnsRefused(cfg: Config, s: Sender, s1: Sender, s': Sender, again: seq<bool>, rest: seq<bool>, i: nat, clock: Clock)
    requires i < |s.sent| && Turns(cfg, s, s1, s', again, rest, i, clock)
    ensures s'.rtxPending <==> s.rtxPending || AnyRefused(cfg, s, again, i, clock)
  {
    hide OutstandingBytes, Flagged, Expired, Renewed, Entry, AnyExpired, AgainIff, Resent, WindowAt, R.Needy;
    assert forall j :: i < j < |s.sent| ==> s1.sent[j] == s.sent[j] && again[j] == rest[j];
    if AnyRefused(cfg, s1, rest, i + 1, clock) {
      var j :| i + 1 <= j < |s1.sent| && !rest[j] && R.Needy(Flagged(cfg, s1.rtxTimeoutPending, s1.sent[j], clock));
      assert !again[j];
    }
  }

  lemma TurnsCompose(cfg: Config, s: Sender, s1: Sender, s': Sender, again: seq<bool>, rest: seq<bool>, i: nat, clock: Clock)
    requires i < |s.sent| && Turns(cfg, s, s1, s', again, rest, i, clock)
    ensures Retransmits(cfg, s, s', again, i, clock)
  {
    hide OutstandingBytes, Flagged, Expired, Renewed, Entry, AnyExpired, AnyRefused, AgainIff, Resent, WindowAt, R.Needy;
    TurnsList(cfg, s, s1, s', again, rest, i, clock);
    TurnsWindow(cfg, s, s1, s', again, rest, i, |s.sent|, clock);
    TurnsResent(cfg, s, s1, s', again, rest, i, |s.sent|, clock);
    TurnsRefused(cfg, s, s1, s', again, rest, i, clock);
    forall j | i <= j < |s.sent| ensures AgainIff(cfg, s, s', again, i, j, clock) {
      TurnsAgain(cfg, s, s1, s', again, rest, i, j, clock);
    }
  }

  lemma NoTurns(cfg: Config, s: Sender, again: seq<bool>, clock: Clock)
    requires |again| == |s.sent|
    ensures Retransmits(cfg, s, s.(rtxTimeoutPending := false), again, |s.sent|, clock)
  {
    hide OutstandingBytes;
  }

  /** One activation of the loop: exactly the packets whose timers are due are flagged and shut the window to one
      packet, exactly those flagged or negatively acknowledged that find room are sent again, in order, and
      a retransmission stays pending exactly if one of them was refused. */
  lemma {:induction false} LoopRetransmits(cfg: Config, s: Sender, i: nat, clock: Clock) returns (again: seq<bool>)
    requires i <= |s.sent|
    ensures Retransmits(cfg, s, RetransmitFrom(cfg, s, i, clock), again, i, clock)
    decreases |s.sent| - i, 1
  {
    hide Retransmits, TurnSends, TimeoutOne, RetransmitOne;
    if i == |s.sent| {
      again := seq(|s.sent|, _ => false);
      NoTurns(cfg, s, again, clock);
    } else {
      TurnEffect(cfg, s, i, clock);
      again := FirstTurn(cfg, s, i, clock);
    }
  }

  lemma {:induction false} FirstTurn(cfg: Config, s: Sender, i: nat, clock: Clock) returns (again: seq<bool>)
    requires i < |s.sent| && TurnDoes(cfg, s, Turn(cfg, s, i, clock), i, TurnSends(cfg, s, i, clock), clock)
    ensures Retransmits(cfg, s, RetransmitFrom(cfg, s, i, clock), again, i, clock)
    decreases |s.sent| - i, 0
  {
    hide TurnSends, TimeoutOne, RetransmitOne, TurnDoes, OutstandingBytes, Flagged, Expired, Renewed, Entry, AnyExpired, AnyRefused, AgainIff, Resent, WindowAt;
    var s1, s' := Turn(cfg, s, i, clock), RetransmitFrom(cfg, s, i, clock);
    var rest := LoopRetransmits(cfg, s1, i + 1, clock);
    again := rest[i := TurnSends(cfg, s, i, clock)];
    TurnsCompose(cfg, s, s1, s', again, rest, i, clock);
  }
}
