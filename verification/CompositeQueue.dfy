/** The composite queue as an object over two ring buffers and the event list. */
module CompositeQueues {
  import opened Basics
  import opened WeightedRoundRobin
  import E = EventLists
  import opened CircularBuffers
  import opened Composite

  class CompositeQueue {
    const config: Config
    const events: E.EventList
    const low: CircularBuffer<Packet>
    const high: CircularBuffer<Packet>
    var sizeLow: int
    var sizeHigh: int
    var phantom: int
    var serv: Serv
    var crt: nat
    var drainNext: nat
    var firstTime: bool
    var ecnMin: int
    var ecnMax: int
    ghost var history: History

    ghost predicate Valid()
      reads low, low.queue, high, high.queue
    {
      config.Valid() && low.Valid() && high.Valid() && low != high && low.queue != high.queue
    }

    ghost function View(): Node
      requires Valid()
      reads this, low, low.queue, high, high.queue, events
    {
      Node(Queue(low.Contents(), high.Contents(), sizeLow, sizeHigh, phantom, serv, crt, drainNext, firstTime, ecnMin, ecnMax),
           events.View(), history)
    }

    constructor (config: Config, events: E.EventList)
      requires config.Valid()
      ensures Valid() && this.config == config && this.events == events
      ensures View() == Node(InitQueue(config), events.View(), NoHistory())
    {
      this.config, this.events := config, events;
      low := new CircularBuffer<Packet>();
      high := new CircularBuffer<Packet>();
      sizeLow, sizeHigh, phantom := 0, 0, 0;
      serv, crt, drainNext, firstTime := Invalid, 0, 0, true;
      ecnMin, ecnMax := 2 * config.maxSize, 2 * config.maxSize;
      history := NoHistory();
    }

    method Serve(choice: Serv, packet: Packet)
      requires Valid() && !choice.Invalid?
      requires choice.High? ==> high.Contents() != [] && packet == high.Contents()[0]
      requires choice.Low? ==> low.Contents() != [] && packet == low.Contents()[0]
      modifies this`serv, this`history, events
      ensures Valid() && View() == Composite.Serve(config, old(View()), choice, crt)
    {
      hide CircularBuffer.Valid, CircularBuffer.Contents, E.SourceIsPending;
      serv := choice;
      events.ScheduleRel(config.source, DrainTime(config, packet));
      history := history.(begun := history.begun + [Service(packet, old(events.lastTime) + DrainTime(config, packet))],
                          decisions := history.decisions + [Decision(low.Contents() != [], high.Contents() != [], choice, crt)]);
    }

    method BeginService()
      requires Valid() && (high.Contents() != [] || low.Contents() != [])
      modifies this`serv, this`crt, this`history, events
      ensures Valid() && View() == Composite.BeginService(config, old(View()))
    {
      hide CircularBuffer.Valid, CircularBuffer.Contents, SourceIsPendingRel, DrainTime;
      if !high.Empty() && !low.Empty() {
        crt := crt + 1;
        if crt >= RATIO_HIGH + RATIO_LOW {
          crt := 0;
        }
        if crt < RATIO_HIGH {
          Serve(High, high.Back());
        } else {
          Serve(Low, low.Back());
        }
        return;
      }
      if !high.Empty() {
        Serve(High, high.Back());
      } else {
        Serve(Low, low.Back());
      }
    }

    method DecreasePhantom()
      requires Valid()
      modifies this`phantom, this`drainNext, this`history, events
      ensures Valid() && View() == Composite.DecreasePhantom(config, old(View()))
    {
      hide CircularBuffer.Valid, CircularBuffer.Contents, E.SourceIsPending;
      phantom := phantom - PHANTOM_PACKET;
      if phantom < 0 {
        phantom := 0;
      }
      drainNext := events.lastTime + config.drain;
      history := history.(drainsSet := history.drainsSet + [drainNext]);
      events.ScheduleRel(config.source, config.drain);
    }

    method AddToPhantom(bytes: nat)
      requires Valid()
      modifies this`phantom
      ensures Valid() && phantom == AddPhantom(config, old(phantom), bytes)
    {
      phantom := phantom + bytes;
      if phantom > config.phantomSize {
        phantom := config.phantomSize;
      }
    }

    /** Overwrites the thresholds on the way, with both queues twice. */
    method DecideEcn(realDraw: nat, draw: nat) returns (mark: bool)
      requires Valid()
      modifies this`ecnMin, this`ecnMax
      ensures Valid() && mark == Composite.DecideEcn(config, old(View()).queue, realDraw, draw)
      ensures ecnMin == KMin(config) && ecnMax == KMax(config)
    {
      hide CircularBuffer.Valid, CircularBuffer.Contents, Ramp;
      if config.useBoth && config.usePhantom {
        var realMark := false;
        ecnMax := config.maxSize / 100 * 80;
        ecnMin := config.maxSize / 100 * 20;
        if sizeLow > ecnMin && realDraw < Ramp(sizeLow, ecnMin, ecnMax) {
          realMark := true;
        }
        ecnMax := config.phantomSize / 100 * config.kMax;
        ecnMin := config.phantomSize / 100 * config.kMin;
        if phantom > ecnMax {
          return true;
        }
        return phantom > ecnMin && (draw < Ramp(phantom, ecnMin, ecnMax) || realMark);
      }
      var size := if config.usePhantom then phantom else sizeLow;
      var limit := if config.usePhantom then config.phantomSize else config.maxSize;
      ecnMax := limit / 100 * config.kMax;
      ecnMin := limit / 100 * config.kMin;
      if size > ecnMax {
        return true;
      }
      return size > ecnMin && draw < Ramp(size, ecnMin, ecnMax);
    }

    /** Pops the low ring and updates the byte counters. */
    method TakeLow() returns (packet: Packet)
      requires Valid() && low.Contents() != []
      modifies this`sizeLow, this`phantom, low
      ensures Valid() && low.queue == old(low.queue) && packet == old(low.Contents())[0]
      ensures View().queue == old(View()).queue.(low := old(low.Contents())[1..], sizeLow := old(sizeLow) - packet.size,
        phantom := if config.inSeries then AddPhantom(config, old(phantom), packet.size) else old(phantom))
    {
      hide CircularBuffer.Valid, CircularBuffer.Contents, AddPhantom;
      packet := low.Pop();
      sizeLow := sizeLow - packet.size;
      if config.inSeries {
        AddToPhantom(packet.size);
      }
    }

    method DepartLow(realDraw: nat, draw: nat) returns (packet: Packet)
      requires Valid() && low.Contents() != []
      modifies this`sizeLow, this`phantom, this`serv, this`ecnMin, this`ecnMax, this`history, low
      ensures Valid() && View() == Composite.DepartLow(config, old(View()), realDraw, draw)
      ensures low.queue == old(low.queue)
    {
      hide CircularBuffer.Valid, CircularBuffer.Contents, Composite.DecideEcn, KMin, KMax, AddPhantom, Mark;
      packet := TakeLow();
      history := history.(completed := history.completed + [Service(packet, events.lastTime)]);
      var mark := DecideEcn(realDraw, draw);
      packet := Mark(packet, mark);
      history := history.(sentLow := history.sentLow + [packet]);
      serv := Invalid;
    }

    /** What a header counts as: feedback of a loss, or a packet the marking is decided for. */
    method CountHeader(packet: Packet, realDraw: nat, draw: nat) returns (marked: Packet)
      requires Valid()
      modifies this`phantom, this`ecnMin, this`ecnMax
      ensures Valid()
      ensures var loss := !packet.kind.Ack? && (packet.kind.Nack? || packet.trim);
        var decides := !packet.kind.Ack? && !loss && !packet.kind.Pull?;
        && phantom == (if loss && config.inSeries then AddPhantom(config, old(phantom), PHANTOM_PACKET) else old(phantom))
        && ecnMin == (if decides then KMin(config) else old(ecnMin))
        && ecnMax == (if decides then KMax(config) else old(ecnMax))
        && marked == if decides then Mark(packet, Composite.DecideEcn(config, old(View()).queue, realDraw, draw)) else packet
    {
      hide CircularBuffer.Valid, CircularBuffer.Contents, Composite.DecideEcn, KMin, KMax, AddPhantom, Mark;
      marked := packet;
      if packet.kind.Ack? {
      } else if packet.kind.Nack? || packet.trim {
        if config.inSeries {
          AddToPhantom(PHANTOM_PACKET);
        }
      } else if packet.kind.Pull? {
      } else {
        var mark := DecideEcn(realDraw, draw);
        marked := Mark(packet, mark);
      }
    }

    method DepartHigh(realDraw: nat, draw: nat) returns (packet: Packet)
      requires Valid() && high.Contents() != []
      modifies this`sizeHigh, this`phantom, this`serv, this`ecnMin, this`ecnMax, this`history, high
      ensures Valid() && View() == Composite.DepartHigh(config, old(View()), realDraw, draw)
      ensures high.queue == old(high.queue)
    {
      hide CircularBuffer.Valid, CircularBuffer.Contents, Composite.DecideEcn, KMin, KMax, AddPhantom, Mark;
      packet := high.Pop();
      history := history.(completed := history.completed + [Service(packet, events.lastTime)]);
      sizeHigh := sizeHigh - packet.size;
      packet := CountHeader(packet, realDraw, draw);
      history := history.(sentHigh := history.sentHigh + [packet]);
      serv := Invalid;
    }

    /** `ok` is false when an assertion failed. */
    method CompleteService(realDraw: nat, draw: nat) returns (ok: bool)
      requires Valid()
      modifies this, low, high, events
      ensures Valid() && low.queue == old(low.queue) && high.queue == old(high.queue)
      ensures ok == Composite.CompleteService(config, old(View()), realDraw, draw).Some?
      ensures ok ==> View() == Composite.CompleteService(config, old(View()), realDraw, draw).value
    {
      hide CircularBuffer.Valid, CircularBuffer.Contents, Composite.DepartLow, Composite.DepartHigh, Composite.BeginService, Composite.DecreasePhantom;
      match serv {
        case Low =>
          if low.Empty() {
            return false;
          }
          var _ := DepartLow(realDraw, draw);
        case High =>
          if high.Empty() {
            return false;
          }
          var _ := DepartHigh(realDraw, draw);
        case Invalid => return false;
      }
      ok := true;
      if !high.Empty() || !low.Empty() {
        BeginService();
      }
      if phantom >= 0 && firstTime && config.usePhantom {
        firstTime := false;
        DecreasePhantom();
      }
    }

    method DoNextEvent(realDraw: nat, draw: nat) returns (ok: bool)
      requires Valid()
      modifies this, low, high, events
      ensures Valid() && low.queue == old(low.queue) && high.queue == old(high.queue)
      ensures ok == Composite.DoNextEvent(config, old(View()), realDraw, draw).Some?
      ensures ok ==> View() == Composite.DoNextEvent(config, old(View()), realDraw, draw).value
    {
      hide CircularBuffer.Valid, CircularBuffer.Contents, Composite.CompleteService, Composite.DecreasePhantom;
      if events.lastTime == drainNext && config.usePhantom {
        history := history.(drained := history.drained + [events.lastTime]);
        DecreasePhantom();
        return true;
      }
      ok := CompleteService(realDraw, draw);
    }

    method ServeIfIdle()
      requires Valid() && (high.Contents() != [] || low.Contents() != [])
      modifies this`serv, this`crt, this`history, events
      ensures Valid() && View() == Composite.ServeIfIdle(config, old(View()))
    {
      hide CircularBuffer.Valid, CircularBuffer.Contents, Composite.BeginService;
      if serv.Invalid? {
        BeginService();
      }
    }

    method ReceiveLow(packet: Packet)
      requires Valid()
      modifies this`sizeLow, this`phantom, this`serv, this`crt, this`history, low, low.queue, events
      ensures Valid() && (fresh(low.queue) || low.queue == old(low.queue))
      ensures View() == Composite.ReceiveLow(config, old(View()), packet)
    {
      hide CircularBuffer.Valid, CircularBuffer.Contents, Composite.ServeIfIdle, AddPhantom;
      low.Push(packet);
      history := history.(acceptedLow := history.acceptedLow + [packet]);
      if !config.inSeries {
        AddToPhantom(packet.size);
      }
      sizeLow := sizeLow + packet.size;
      ServeIfIdle();
    }

    method ReceiveHigh(packet: Packet)
      requires Valid()
      modifies this`sizeHigh, this`serv, this`crt, this`history, high, high.queue, events
      ensures Valid() && (fresh(high.queue) || high.queue == old(high.queue))
      ensures View() == Composite.ReceiveHigh(config, old(View()), packet)
    {
      hide CircularBuffer.Valid, CircularBuffer.Contents, Composite.ServeIfIdle;
      if sizeHigh + packet.size > 2000 * config.maxSize {
        if packet.reversible && !packet.bounced {
          history := history.(bounced := history.bounced + [packet.(bounced := true, header := true)]);
        } else {
          history := history.(dropped := history.dropped + [packet]);
        }
        return;
      }
      high.Push(packet);
      history := history.(acceptedHigh := history.acceptedHigh + [packet]);
      sizeHigh := sizeHigh + packet.size;
      ServeIfIdle();
    }

    method ReceivePacket(packet: Packet)
      requires Valid()
      modifies this, low, low.queue, high, high.queue, events
      ensures Valid() && (fresh(low.queue) || low.queue == old(low.queue)) && (fresh(high.queue) || high.queue == old(high.queue))
      ensures View() == Composite.ReceivePacket(config, old(View()), packet)
    {
      hide CircularBuffer.Valid, CircularBuffer.Contents, Composite.ReceiveLow, Composite.ReceiveHigh, AddPhantom;
      history := history.(arrived := history.arrived + [packet]);
      var received := packet;
      if !packet.header {
        if sizeLow + packet.size <= config.maxSize {
          ReceiveLow(packet);
          return;
        }
        if !config.inSeries {
          AddToPhantom(PHANTOM_PACKET);
        }
        if config.dropWhenFull {
          history := history.(dropped := history.dropped + [packet]);
          return;
        }
        received := Strip(config, packet);
      }
      ReceiveHigh(received);
    }
  }
}
