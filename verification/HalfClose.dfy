/** A tunnel run in which a peer that closes its own half of a stream cuts the other half off after one more window. */
module HalfClose {
  import opened Bytes
  import opened Reader
  import opened Frames
  import opened Addresses
  import M = Messages
  import FC = FlowControl
  import SP = StreamPipe
  import SG = StreamGuarantees
  import opened Connection
  import opened Lifecycle
  import opened Tunnel

  const ACCEPT := M.OpenStreamAck(M.STATUS_OK, M.ERR_NONE, [])

  lemma StartReachable()
    ensures Reachable(Init(None))
  {
    assert Runs(Init(None), []) && End(Init(None), []) == Init(None);
  }

  lemma OpenDecodes(id: nat, addr: Address)
    ensures AddressAt(OpenFrame(id, addr).body, 0) == Ok((addr, |AddressBytes(addr)|))
  {
    hide AddressAt;
    var bs := AddressBytes(addr);
    assert bs + [] == bs;
    CarriesStart(bs, []);
    AddressFound(bs, 0, addr);
  }

  /** The client's request has reached the server's application. */
  lemma Offers(addr: Address) returns (s: State)
    ensures Reachable(s)
    ensures s.client == NewEndpoint(false, None).(pending := {1})
    ensures s.server == NewEndpoint(true, None).(incoming := {1}, log := s.server.log)
  {
    hide Reachable, AddressBytes, AddressAt;
    StartReachable();
    OpenDecodes(1, addr);
    s := Then(Init(None), Act(Client, CallOpen(1, addr)));
    s := Then(s, Act(Client, TakeCommand));
    s := Then(s, Act(Client, Write));
    s := Then(s, Deliver(Server, BadRequest()));
  }

  /** The stream is open at both ends and nothing has been sent on it. */
  lemma Opens(addr: Address) returns (s: State)
    ensures Reachable(s)
    ensures s.client == Spawn(NewEndpoint(false, None), 1).(log := s.client.log)
    ensures s.server == Spawn(NewEndpoint(true, None), 1).(log := s.server.log)
  {
    hide Reachable, AcceptsOpen, AckFrame;
    s := Offers(addr);
    AckMeaning(1, ACCEPT);
    s := Then(s, Act(Server, Answer(1, ACCEPT)));
    s := Then(s, Act(Server, TakeCommand));
    s := Then(s, Act(Server, Write));
    s := Then(s, Deliver(Client, BadRequest()));
  }

  /** The server's application has closed its half, and the client's loop has handled the end mark. */
  lemma HalfCloses(addr: Address) returns (s: State)
    ensures Reachable(s)
    ensures s.client == Spawn(NewEndpoint(false, None), 1).(streams := {}, credits := {}, log := s.client.log)
    ensures s.server.alive && 1 in s.server.streams && 1 in s.server.credits
  {
    hide Reachable;
    s := Opens(addr);
    s := Then(s, Act(Server, Pump(1, SP.AppClose)));
    s := Then(s, Act(Server, Pump(1, SP.PassWindow)));
    s := Then(s, Act(Server, Pump(1, SP.ReadEof)));
    s := Then(s, Act(Server, Pump(1, SP.SendFin)));
    s := Then(s, Act(Server, TakeCommand));
    s := Then(s, Act(Server, Write));
    s := Then(s, Deliver(Client, BadRequest()));
  }

  /** The client's application and pump have passed i more chunks of the cut half, counted and never credited. */
  predicate Sent(s: State, i: nat) {
    && s.client.alive && s.server.alive && s.client.credits == {} && 1 in s.server.streams
    && 1 in s.client.sources
    && var t := s.client.sources[1].tx;
       t.pump == SP.Waiting && t.inbuf == [] && !t.appClosed && !t.failed && t.outstanding == i * FC.CHUNK
  }

  lemma SendsOne(s: State, i: nat) returns (s': State)
    requires Reachable(s) && Sent(s, i) && i < 16
    ensures Reachable(s') && Sent(s', i + 1)
  {
    hide Reachable;
    s' := Then(s, Act(Client, Pump(1, SP.AppWrite(seq(FC.CHUNK, _ => 0)))));
    s' := Then(s', Act(Client, Pump(1, SP.PassWindow)));
    s' := Then(s', Act(Client, Pump(1, SP.ReadChunk(FC.CHUNK))));
    s' := Then(s', Act(Client, Pump(1, SP.Enqueue)));
    s' := Then(s', Act(Client, Pump(1, SP.Account)));
  }

  lemma {:induction false} SendsMany(addr: Address, i: nat) returns (s: State)
    requires i <= 16
    ensures Reachable(s) && Sent(s, i)
  {
    hide Reachable;
    if i == 0 {
      s := HalfCloses(addr);
    } else {
      s := SendsMany(addr, i - 1);
      s := SendsOne(s, i - 1);
    }
  }

  /**
   * The server's application closes its own half of a stream and keeps reading. The end mark removes the client's
   * credit entry, so after one more window the client's sender waits for good, with both loops alive and the stream
   * routed at the server.
   */
  lemma CutIsReached(addr: Address) returns (s: State)
    ensures Reachable(s) && s.client.alive && s.server.alive && 1 in s.server.streams
    ensures SG.Cut(PipeOf(s, 1, Client)) && !s.client.sources[1].tx.appClosed
  {
    hide Reachable;
    s := SendsMany(addr, 16);
  }
}
