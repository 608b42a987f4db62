/**
 What single steps of the tunnel do, in terms of bytes, packets and who is registered only, and the laws these
 effects add up to over whole runs: every request is answered once, a stopped device stays stopped, and a
 connection is registered until something ends it.
 */
module TunnelEffects {
  import opened Options
  import opened Codec
  import opened DeviceTable
  import opened Tunnel
  import opened TunnelInvariant
  import opened TunnelRuns
  import Client
  import Server

  /** One packet, which the client reads as `m`, is added to a channel if its send gets through. */
  ghost predicate Appends(down: seq<Packet>, down': seq<Packet>, sent: bool, m: ClientMsg) {
    if sent then |down'| == |down| + 1 && down'[..|down|] == down && ClientView(down'[|down|]) == m else down' == down
  }

  // ---------------------------------------------------------------- towards the device

  /** A bindy_write that gets through puts one packet with this serial and these bytes into the channel. */
  lemma WriteSends(s: State, c: ConnId, payload: Bytes, ok: bool)
    requires c in s.links && s.links[c].phase == Open
    ensures Enabled(s, Write(c, payload, ok))
    ensures var l, l' := s.links[c], Next(s, Write(c, payload, ok)).links[c];
            if ok && l.live then
              && |l'.up| == |l.up| + 1 && l'.up[..|l.up|] == l.up
              && ServerView(l'.up[|l.up|]) == ToDevice(l.serial, payload) && l'.sent == l.sent + payload
            else l' == l
  {
    RawDataViews(s.links[c].serial, payload);
  }

  /** The server puts the payload of a packet behind what the device's buffer already holds. */
  lemma DataBuffered(s: State, c: ConnId, canOpen: bool, ok: bool, ser: Serial, payload: Bytes)
    requires Enabled(s, ServerDeliver(c, canOpen, ok)) && ServerView(s.links[c].up[0]) == ToDevice(ser, payload)
    requires Has(s.server, c, ser)
    ensures var s' := Next(s, ServerDeliver(c, canOpen, ok));
            && Has(s'.server, c, ser)
            && s'.server.devmap[c][ser].buffer == s.server.devmap[c][ser].buffer + payload
            && s'.server.devmap[c][ser].shouldExit == s.server.devmap[c][ser].shouldExit
            && s'.links[c].up == s.links[c].up[1..] && s'.links[c].lost == s.links[c].lost
  {
  }

  /** write() accepting n bytes: exactly the first n bytes of the buffer go to the device and leave the buffer. */
  lemma BytesWritten(s: State, c: ConnId, ser: Serial, n: nat, ok: bool)
    requires c in s.links && Has(s.server, c, ser) && !s.server.devmap[c][ser].shouldExit
    requires n <= |s.server.devmap[c][ser].buffer|
    ensures Enabled(s, BufToDev(c, ser, n, ok))
    ensures var s' := Next(s, BufToDev(c, ser, n, ok));
            var d, l, l' := s.server.devmap[c][ser], s.links[c], s'.links[c];
            && Has(s'.server, c, ser) && !s'.server.devmap[c][ser].shouldExit
            && l'.written == l.written + d.buffer[..n] && |l'.written| == |l.written| + n
            && s'.server.devmap[c][ser].buffer == d.buffer[n..]
            && l'.down == l.down
  {
  }

  /** write() failing: nothing is lost, the device stops, and the client is told once. */
  lemma WriteErrorStops(s: State, c: ConnId, ser: Serial, ok: bool)
    requires c in s.links && Has(s.server, c, ser) && !s.server.devmap[c][ser].shouldExit
    requires s.server.devmap[c][ser].buffer != []
    ensures Enabled(s, BufToDev(c, ser, -1, ok))
    ensures var s' := Next(s, BufToDev(c, ser, -1, ok));
            var l, l' := s.links[c], s'.links[c];
            && Has(s'.server, c, ser) && s'.server.devmap[c][ser].shouldExit
            && s'.server.devmap[c][ser].buffer == s.server.devmap[c][ser].buffer && l'.written == l.written
            && l'.up == l.up && l'.phase == l.phase
            && Appends(l.down, l'.down, ok && l.live, DeviceGone(ser))
  {
    AnswerViews(ser, false);
  }

  /** The workers of a stopped device have no step left. */
  lemma WorkersOver(s: State, c: ConnId, ser: Serial)
    requires c in s.links && Has(s.server, c, ser) && s.server.devmap[c][ser].shouldExit
    ensures forall n: int, ok: bool :: !Enabled(s, BufToDev(c, ser, n, ok))
    ensures forall chunk: Bytes, ok: bool :: !Enabled(s, DevToNet(c, ser, chunk, ok))
  {
  }

  // ---------------------------------------------------------------- requests and answers

  predicate IsRequest(p: Packet) { ServerView(p).OpenRequest? || ServerView(p).CloseRequest? }

  /** An open request is answered with whether the device is there now, which is when the connection is granted it. */
  lemma OpenAnswered(s: State, c: ConnId, canOpen: bool, ok: bool, ser: Serial)
    requires Enabled(s, ServerDeliver(c, canOpen, ok)) && ServerView(s.links[c].up[0]) == OpenRequest(ser)
    ensures var s' := Next(s, ServerDeliver(c, canOpen, ok));
            var l, l', there := s.links[c], s'.links[c], Has(s'.server, c, ser);
            && l'.up == l.up[1..] && Appends(l.down, l'.down, ok && l.live, OpenAnswer(ser, there))
            && (there <==> Has(s.server, c, ser) || (canOpen && ser !in s.server.locks))
            && l'.granted == (l.granted || there)
  {
    AnswerViews(ser, AddSucceeds(s.server, c, ser, canOpen));
  }

  /** A close request is answered, and the device is gone with what it had buffered. */
  lemma CloseAnswered(s: State, c: ConnId, canOpen: bool, ok: bool, ser: Serial)
    requires Enabled(s, ServerDeliver(c, canOpen, ok)) && ServerView(s.links[c].up[0]) == CloseRequest(ser)
    ensures var s' := Next(s, ServerDeliver(c, canOpen, ok));
            var l, l' := s.links[c], s'.links[c];
            && l'.up == l.up[1..] && Appends(l.down, l'.down, ok && l.live, DeviceGone(ser))
            && !Has(s'.server, c, ser) && l'.granted == l.granted
  {
    AnswerViews(ser, false);
  }

  lemma OthersUnanswered(s: State, c: ConnId, canOpen: bool, ok: bool)
    requires Enabled(s, ServerDeliver(c, canOpen, ok)) && !IsRequest(s.links[c].up[0])
    ensures var s' := Next(s, ServerDeliver(c, canOpen, ok));
            s'.links[c].down == s.links[c].down && s'.links[c].granted == s.links[c].granted
  {
  }

  /** The growth of a channel in one step of the server's callback for its connection. */
  ghost function Grows(s: State, a: Step, c: ConnId): int
    requires Enabled(s, a)
  {
    if a.ServerDeliver? && a.c == c then |Next(s, a).links[c].down| - |s.links[c].down| else 0
  }

  ghost predicate Handles(s: State, a: Step, c: ConnId)
    requires Enabled(s, a)
  {
    a.ServerDeliver? && a.c == c && IsRequest(s.links[c].up[0])
  }

  /** Packets put into a connection's channel by the server's callback in a run. */
  ghost function Answers(s: State, steps: seq<Step>, c: ConnId): int
    requires Runs(s, steps)
    decreases |steps|
  {
    if steps == [] then 0 else Grows(s, steps[0], c) + Answers(Next(s, steps[0]), steps[1..], c)
  }

  /** Open and close requests of the connection handled in a run. */
  ghost function Requests(s: State, steps: seq<Step>, c: ConnId): int
    requires Runs(s, steps)
    decreases |steps|
  {
    if steps == [] then 0
    else (if Handles(s, steps[0], c) then 1 else 0) + Requests(Next(s, steps[0]), steps[1..], c)
  }

  /** Those of them whose answer could not be sent. */
  ghost function SendsFailed(s: State, steps: seq<Step>, c: ConnId): int
    requires Runs(s, steps)
    decreases |steps|
  {
    if steps == [] then 0
    else (if Handles(s, steps[0], c) && !(steps[0].ok && s.links[c].live) then 1 else 0)
         + SendsFailed(Next(s, steps[0]), steps[1..], c)
  }

  lemma AnswerOwn(s: State, c: ConnId, canOpen: bool, ok: bool, p: Packet)
    requires Enabled(s, ServerDeliver(c, canOpen, ok)) && p == s.links[c].up[0]
    ensures var l, l' := s.links[c], Next(s, ServerDeliver(c, canOpen, ok)).links[c];
            |l'.down| == |l.down| + (if IsRequest(p) && ok && l.live then 1 else 0)
  {
    match ServerView(p)
    case OpenRequest(ser) => OpenAnswered(s, c, canOpen, ok, ser);
    case CloseRequest(ser) => CloseAnswered(s, c, canOpen, ok, ser);
    case _ => OthersUnanswered(s, c, canOpen, ok);
  }

  lemma AnswerStep(s: State, a: Step, c: ConnId)
    requires Enabled(s, a)
    ensures Grows(s, a, c) == if Handles(s, a, c) && a.ok && s.links[c].live then 1 else 0
  {
    if a.ServerDeliver? && a.c == c { AnswerOwn(s, c, a.canOpen, a.ok, s.links[c].up[0]); }
  }

  /** Over every run, each open or close request handled is answered by exactly one packet, unless that send fails. */
  lemma {:induction false} AnswerAccount(s: State, steps: seq<Step>, c: ConnId)
    requires Runs(s, steps)
    ensures Answers(s, steps, c) + SendsFailed(s, steps, c) == Requests(s, steps, c)
    decreases |steps|
  {
    if steps != [] {
      AnswerStep(s, steps[0], c);
      AnswerAccount(Next(s, steps[0]), steps[1..], c);
    }
  }

  // ---------------------------------------------------------------- from the device

  /** A chunk read from the device is sent whole, or counted as refused. */
  lemma ChunkSent(s: State, c: ConnId, ser: Serial, chunk: Bytes, ok: bool)
    requires c in s.links && Has(s.server, c, ser) && !s.server.devmap[c][ser].shouldExit && 0 < |chunk| <= 1024
    ensures Enabled(s, DevToNet(c, ser, chunk, ok))
    ensures var l, l' := s.links[c], Next(s, DevToNet(c, ser, chunk, ok)).links[c];
            && l'.produced == l.produced + [chunk]
            && Appends(l.down, l'.down, ok && l.live, FromDevice(ser, chunk))
            && l'.refused == l.refused + (if ok && l.live then 0 else 1) && l'.unheard == l.unheard
  {
    RawDataViews(ser, chunk);
  }

  /** A chunk that arrives goes to the end of the registered device's buffer, or counts as unheard. */
  lemma ChunkArrives(s: State, c: ConnId, ser: Serial, chunk: Bytes)
    requires Enabled(s, ClientDeliver(c)) && ClientView(s.links[c].down[0]) == FromDevice(ser, chunk)
    ensures var s' := Next(s, ClientDeliver(c));
            var l, l' := s.links[c], s'.links[c];
            && l'.down == l.down[1..] && l'.refused == l.refused
            && (c in s'.client.devices <==> c in s.client.devices)
            && (if c in s.client.devices then
                  s'.client.devices[c].buffer == s.client.devices[c].buffer + chunk
                  && l'.delivered == l.delivered + [chunk] && l'.unheard == l.unheard
                else l'.delivered == l.delivered && l'.unheard == l.unheard + 1)
  {
  }

  /** bindy_read hands out the first bytes of the buffer, as many as asked for if there are as many. */
  lemma ReadTakes(s: State, c: ConnId, size: nat)
    requires c in s.links && c in s.client.devices
    ensures Enabled(s, Read(c, size))
    ensures var s' := Next(s, Read(c, size));
            var b, l, l' := s.client.devices[c].buffer, s.links[c], s'.links[c];
            var n := if size < |b| then size else |b|;
            && c in s'.client.devices
            && l'.read == l.read + b[..n] && s'.client.devices[c].buffer == b[n..]
  {
  }

  // ---------------------------------------------------------------- a stopped device

  /** The connection's device has stopped, or is gone, and no open request for another one is on its way. */
  ghost predicate Stopped(s: State, c: ConnId) {
    && c in s.links && s.links[c].phase != Preparing && s.links[c].phase != Connected
    && (forall p <- s.links[c].up :: !IsOpenRequest(p))
    && (forall ser :: Has(s.server, c, ser) ==> s.server.devmap[c][ser].shouldExit)
  }

  /** After a write error a device is stopped in this sense. */
  lemma ErrorStopped(s: State, c: ConnId, ser: Serial, ok: bool)
    requires Inv(s) && c in s.links && Has(s.server, c, ser) && !s.server.devmap[c][ser].shouldExit
    requires s.server.devmap[c][ser].buffer != []
    ensures Enabled(s, BufToDev(c, ser, -1, ok)) && Stopped(Next(s, BufToDev(c, ser, -1, ok)), c)
  {
    var a := BufToDev(c, ser, -1, ok);
    WriteErrorStops(s, c, ser, ok);
    NoRequests(s, c, ser);
    InvStep(s, a);
    OnlyOwn(Next(s, a), c, ser);
  }

  /** Where a device is there, its connection has made its one open request. */
  lemma NoRequests(s: State, c: ConnId, ser: Serial)
    requires Inv(s) && c in s.links && Has(s.server, c, ser)
    ensures s.links[c].phase != Preparing && s.links[c].phase != Connected
    ensures forall p <- s.links[c].up :: !IsOpenRequest(p)
  {
    assert LinkInv(s, c);
    var l := s.links[c];
    assert HasDev(l, At(s.server.devmap, c));
    forall p | p in l.up ensures !IsOpenRequest(p) {
      var i :| 0 <= i < |l.up| && l.up[i] == p;
      assert UpShape(l.up[i], l.serial, i == 0);
    }
  }

  lemma OnlyOwn(s: State, c: ConnId, ser: Serial)
    requires Inv(s) && c in s.links && Has(s.server, c, ser)
    ensures forall ser' :: Has(s.server, c, ser') ==> ser' == ser
  {
    assert LinkInv(s, c);
  }

  lemma StoppedStep(s: State, a: Step, c: ConnId)
    requires Stopped(s, c) && Enabled(s, a)
    ensures Stopped(Next(s, a), c)
    ensures Next(s, a).links[c].written == s.links[c].written && Next(s, a).links[c].produced == s.links[c].produced
  {
    if a.c != c {
      Isolation(s, a, c);
      var s' := Next(s, a);
      assert At(s'.links, c) == At(s.links, c) && At(s'.server.devmap, c) == At(s.server.devmap, c);
      assert forall ser :: Has(s'.server, c, ser) ==>
                             Has(s.server, c, ser) && s'.server.devmap[c] == s.server.devmap[c];
    } else if a.ServerDeliver? {
      StoppedServer(s, c, a.canOpen, a.ok);
    } else {
      StoppedOwn(s, a, c);
    }
  }

  lemma StoppedServer(s: State, c: ConnId, canOpen: bool, ok: bool)
    requires Stopped(s, c) && Enabled(s, ServerDeliver(c, canOpen, ok))
    ensures var s' := Next(s, ServerDeliver(c, canOpen, ok));
            Stopped(s', c) && s'.links[c].written == s.links[c].written && s'.links[c].produced == s.links[c].produced
  {
    assert !IsOpenRequest(s.links[c].up[0]);
  }

  lemma StoppedOwn(s: State, a: Step, c: ConnId)
    requires Stopped(s, c) && Enabled(s, a) && a.c == c && !a.ServerDeliver?
    ensures Stopped(Next(s, a), c)
    ensures Next(s, a).links[c].written == s.links[c].written && Next(s, a).links[c].produced == s.links[c].produced
  {
    match a
    case Write(_, payload, _) => RawDataViews(s.links[c].serial, payload);
    case CloseSend(_, _) => RequestViews(s.client.devices[c].serial);
    case _ =>
  }

  /** A stopped device never accepts another byte and never produces another chunk, in any run. */
  lemma {:induction false} StoppedForever(s: State, steps: seq<Step>, c: ConnId)
    requires Stopped(s, c) && Runs(s, steps)
    ensures Stopped(Exec(s, steps), c)
    ensures Exec(s, steps).links[c].written == s.links[c].written
    ensures Exec(s, steps).links[c].produced == s.links[c].produced
    decreases |steps|
  {
    if steps != [] {
      StoppedStep(s, steps[0], c);
      StoppedForever(Next(s, steps[0]), steps[1..], c);
    }
  }

  // ---------------------------------------------------------------- registration

  /** A successful bindy_open registers an empty device of its serial. */
  lemma FinishRegisters(s: State, c: ConnId)
    requires c in s.links && s.links[c].phase == Polling
    ensures Enabled(s, OpenFinish(c))
    ensures var s' := Next(s, OpenFinish(c));
            if Client.AnsweredOk(s.client, s.links[c].serial) then
              && s'.links[c].phase == Open && c in s'.client.devices
              && s'.client.devices[c].serial == s.links[c].serial && s'.client.devices[c].buffer == []
            else s'.links[c].phase == Failed && (c in s'.client.devices <==> c in s.client.devices)
  {
  }

  /** The steps that end a registration: bindy_close, and a close answer or error notification that arrives. */
  predicate Ends(s: State, a: Step, c: ConnId)
    requires Enabled(s, a)
  {
    a.c == c && (a.CloseErase? || (a.ClientDeliver? && ClientView(s.links[c].down[0]).DeviceGone?))
  }

  ghost predicate EverEnds(s: State, steps: seq<Step>, c: ConnId)
    requires Runs(s, steps)
    decreases |steps|
  {
    steps != [] && (Ends(s, steps[0], c) || EverEnds(Next(s, steps[0]), steps[1..], c))
  }

  lemma RegisteredStep(s: State, a: Step, c: ConnId)
    requires c in s.links && s.links[c].phase == Open && Enabled(s, a)
    ensures c in Next(s, a).links && Next(s, a).links[c].phase == Open
    ensures c in Next(s, a).client.devices <==> c in s.client.devices && !Ends(s, a, c)
  {
    if a.c != c {
      Isolation(s, a, c);
      assert At(Next(s, a).links, c) == At(s.links, c);
      assert At(Next(s, a).client.devices, c) == At(s.client.devices, c);
    }
  }

  /**
   An open connection is registered exactly as long as nothing has ended it: over every run, iff it was at the
   start and no step of the run ends it. In particular, once ended it is never registered again.
   */
  lemma {:induction false} RegisteredIff(s: State, steps: seq<Step>, c: ConnId)
    requires c in s.links && s.links[c].phase == Open && Runs(s, steps)
    ensures c in Exec(s, steps).client.devices <==> c in s.client.devices && !EverEnds(s, steps, c)
    decreases |steps|
  {
    if steps != [] {
      RegisteredStep(s, steps[0], c);
      RegisteredIff(Next(s, steps[0]), steps[1..], c);
    }
  }

  /** bindy_close sends the close request of the registered serial. */
  lemma CloseSends(s: State, c: ConnId, ok: bool)
    requires c in s.links && c in s.client.devices
    ensures Enabled(s, CloseSend(c, ok)) && Enabled(s, CloseErase(c))
    ensures var l, l' := s.links[c], Next(s, CloseSend(c, ok)).links[c];
            if ok && l.live then
              |l'.up| == |l.up| + 1 && l'.up[..|l.up|] == l.up
              && ServerView(l'.up[|l.up|]) == CloseRequest(s.client.devices[c].serial)
            else l'.up == l.up
    ensures c !in Next(s, CloseErase(c)).client.devices
  {
    RequestViews(s.client.devices[c].serial);
  }

  /** A connection that is down loses all its devices and what was still on its way to them, when the server notices. */
  lemma DisconnectClears(s: State, c: ConnId)
    requires c in s.links && !s.links[c].live && !s.server.mutexHeld
    ensures Enabled(s, Disconnected(c))
    ensures var s' := Next(s, Disconnected(c));
            && (forall c', ser :: Has(s'.server, c', ser) <==> Has(s.server, c', ser) && c' != c)
            && s'.links[c].up == [] && s'.links[c].down == s.links[c].down
  {
  }
}
