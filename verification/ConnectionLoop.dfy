/**
 * The connection loop as the program runs it: one object whose tables and queues each frame and command updates in
 * place. Every method is shown to be the transition of Connection that the tunnel theorems are about.
 */
module ConnectionLoop {
  import opened Bytes
  import opened Varint
  import opened Frames
  import opened Addresses
  import M = Messages
  import opened StreamPipe
  import opened Connection

  class Loop {
    var cmd: seq<Cmd>
    var out: seq<Frame>
    var wire: seq<Frame>
    var pending: set<nat>
    var streams: set<nat>
    var credits: set<nat>
    var sources: map<nat, Source>
    var sinks: map<nat, Rx>
    var incoming: set<nat>
    var sessions: Option<set<nat>>
    var log: seq<Event>
    var alive: bool
    const authenticates: bool

    constructor (authenticates: bool, tracksSessions: bool)
      ensures View() == NewEndpoint(authenticates, if tracksSessions then Some({}) else None)
    {
      cmd, out, wire := [], [], [];
      pending, streams, credits := {}, {}, {};
      sources, sinks := map[], map[];
      incoming, log, alive := {}, [], true;
      sessions := if tracksSessions then Some({}) else None;
      this.authenticates := authenticates;
    }

    ghost function View(): Endpoint
      reads this
    {
      Endpoint(cmd, out, wire, pending, streams, credits, sources, sinks, incoming, sessions, authenticates, log, alive)
    }

    method Send(f: Frame)
      modifies this`out
      ensures out == old(out) + [f]
    {
      out := out + [f];
    }

    /** Registers a stream and starts its pump and writer. */
    method SpawnStream(id: nat)
      modifies this`credits, this`sources, this`sinks, this`streams
      ensures View() == Spawn(old(View()), id)
    {
      credits := credits + {id};
      sources := sources[id := Source(FRESH_TX, [], None)];
      sinks := sinks[id := FRESH_RX];
      streams := streams + {id};
    }

    method HandleAuthRequest(f: Frame, verdict: M.Message)
      requires IsResponse(verdict)
      modifies this`sessions, this`out, this`log
      ensures View() == OnAuthRequest(old(View()), f, verdict)
    {
      if authenticates {
        var resp := BadRequest();
        if M.DecodeMessage(M.TAuthRequest, f.body).Ok? {
          resp := verdict;
          if f.streamId != 0 && sessions.Some? && resp.status == M.STATUS_OK {
            sessions := Some(sessions.value + {f.streamId});
          }
        }
        log := log + [Answered(f.streamId, resp.status)];
        Send(ResponseFrame(f.streamId, resp));
      }
    }

    method HandleOpenStream(f: Frame)
      modifies this`out, this`log, this`incoming
      ensures View() == OnOpenStream(old(View()), f)
    {
      if f.streamId != 0 && sessions.Some? && f.streamId !in sessions.value {
        Send(AckFrame(f.streamId, Rejection()));
        return;
      }
      var r := AddressAt(f.body, 0);
      if r.Ok? {
        log := log + [Opened(f.streamId, r.value.0)];
        incoming := incoming + {f.streamId};
      }
    }

    method HandleOpenStreamAck(f: Frame)
      modifies this`pending, this`credits, this`sources, this`sinks, this`streams, this`log
      ensures View() == OnOpenStreamAck(old(View()), f)
    {
      if f.streamId in pending {
        pending := pending - {f.streamId};
        var r := M.DecodeMessage(M.TOpenStreamAck, f.body);
        if r.Err? {
          log := log + [Told(f.streamId, Unreadable(r.error))];
        } else if r.value.0.ackStatus == M.STATUS_OK {
          SpawnStream(f.streamId);
          log := log + [Told(f.streamId, Granted)];
        } else {
          log := log + [Told(f.streamId, Denied(r.value.0.ackText))];
        }
      }
    }

    method HandleCredit(f: Frame)
      modifies this`sources
      ensures View() == OnCredit(old(View()), f)
    {
      if f.streamId != 0 {
        var r := DecodeVarint(f.body);
        if r.Ok? && f.streamId in sources {
          var s := sources[f.streamId];
          sources := sources[f.streamId := s.(tx := ReceiveCredit(s.tx, f.streamId in credits, r.value.0))];
        }
      }
    }

    method HandleData(f: Frame)
      modifies this`sinks
      ensures View() == OnData(old(View()), f)
    {
      if f.streamId in streams && f.streamId in sinks {
        var r := sinks[f.streamId];
        sinks := sinks[f.streamId := r.(queue := r.queue + [f.body])];
      }
    }

    /** handle_frame on a decoded frame. */
    method HandleFrame(f: Frame, verdict: M.Message)
      requires IsResponse(verdict)
      modifies this
      ensures View() == Dispatch(old(View()), f, verdict)
    {
      hide OnAuthRequest, OnOpenStream, OnOpenStreamAck, OnData, OnCredit;
      var t := f.frameType;
      if t == AUTH_REQUEST {
        HandleAuthRequest(f, verdict);
      } else if t == OPEN_STREAM {
        HandleOpenStream(f);
      } else if t == OPEN_STREAM_ACK {
        HandleOpenStreamAck(f);
      } else if t == STREAM_DATA {
        HandleData(f);
      } else if t == STREAM_CREDIT {
        HandleCredit(f);
      } else if t == STREAM_CLOSE {
        credits := credits - {f.streamId};
        streams := streams - {f.streamId};
      } else if t == DATAGRAM {
        if f.streamId != 0 && sessions.Some? && f.streamId !in sessions.value {
          return;
        }
        var r := M.DecodeDatagram(f.body);
        if r.Ok? {
          log := log + [DatagramArrived(f.streamId, r.value.0)];
        }
      } else if t == PING {
        Send(Frame(0, PONG, f.body));
      }
    }

    /** One command taken from the queue; false ends the loop. */
    method HandleNextCommand() returns (goesOn: bool)
      requires CommandEnabled(View())
      modifies this
      ensures View() == CommandApply(old(View()))
      ensures goesOn == !old(cmd[0]).CloseCmd?
    {
      var c := cmd[0];
      cmd := cmd[1..];
      match c {
        case SendFrame(f) => Send(f);
        case OpenCmd(id, addr) =>
          Send(OpenFrame(id, addr));
          pending := pending + {id};
        case ReplyOpen(id, ack) =>
          Send(AckFrame(id, ack));
          if ack.ackStatus == M.STATUS_OK {
            SpawnStream(id);
          }
        case CloseCmd => Stop();
      }
      goesOn := !c.CloseCmd?;
    }

    /** Whatever ends the loop drops its tables. */
    method Stop()
      modifies this`alive, this`streams, this`credits
      ensures View() == Stopped(old(View()))
    {
      alive, streams, credits := false, {}, {};
    }
  }
}
