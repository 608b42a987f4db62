/**
 The invariant over whole runs of the tunnel, and what it means: nothing is lost, invented, reordered or mixed
 up on the way to the device and back.
 */
module TunnelRuns {
  import opened Options
  import opened Codec
  import opened DeviceTable
  import opened Streams
  import opened Tunnel
  import opened TunnelInvariant
  import Client
  import Server

  ghost predicate LinkInv(s: State, c: ConnId)
    requires c in s.links
  {
    UpOk(s.links[c], At(s.server.devmap, c)) && DownOk(s.links[c], At(s.client.devices, c))
  }

  ghost predicate LinksInv(s: State) {
    && s.server.devmap.Keys <= s.links.Keys && s.client.devices.Keys <= s.links.Keys
    && (forall c <- s.links :: LinkInv(s, c))
  }

  ghost predicate Inv(s: State) { LinksInv(s) && Exclusive(s.server) && !s.server.mutexHeld }

  // ---------------------------------------------------------------- a step leaves other connections alone

  /** Everything that belongs to connection `c` is the same in both states. */
  ghost predicate SameLink(s: State, s': State, c: ConnId) {
    && At(s'.links, c) == At(s.links, c)
    && At(s'.server.devmap, c) == At(s.server.devmap, c)
    && At(s'.client.devices, c) == At(s.client.devices, c)
  }

  lemma CallbackFrame(t: Table<Server.ServerDevice>, c: ConnId, data: Packet, canOpen: bool, c': ConnId)
    requires c' != c
    ensures At(Server.Callback(t, c, data, canOpen).table.devmap, c') == At(t.devmap, c')
  {
  }

  lemma ClientFrame(m: Client.Maps, c: ConnId, data: Packet, c': ConnId)
    requires c' != c
    ensures At(Client.Callback(m, c, data).devices, c') == At(m.devices, c')
  {
  }

  /** A step of one connection changes nothing of another: not its channels, buffers, devices or byte counts. */
  lemma Isolation(s: State, a: Step, c: ConnId)
    requires Enabled(s, a) && c != a.c
    ensures SameLink(s, Next(s, a), c)
  {
    if a.ServerDeliver? {
      CallbackFrame(s.server, a.c, s.links[a.c].up[0], a.canOpen, c);
    } else if a.ClientDeliver? {
      ClientFrame(s.client, a.c, s.links[a.c].down[0], c);
    }
  }

  // ---------------------------------------------------------------- a step keeps its own connection in order

  /** The parts of a state that belong to connection `c`. */
  ghost predicate Shows(s: State, c: ConnId, l: Link, srv: Option<Devices>, cli: Option<Client.ClientDevice>) {
    && c in s.links && s.links[c] == l
    && At(s.server.devmap, c) == srv && At(s.client.devices, c) == cli
  }

  lemma OwnReset(s: State, c: ConnId, serial: Serial)
    requires LinksInv(s) && c !in s.links
    ensures LinkInv(Next(s, OpenReset(c, serial)), c)
  {
    FreshOk(serial);
    assert Shows(Next(s, OpenReset(c, serial)), c, Fresh(serial), None, None);
  }

  lemma OwnConnect(s: State, c: ConnId, ok: bool, l: Link, srv: Option<Devices>, cli: Option<Client.ClientDevice>)
    requires LinkOk(l, srv, cli) && Shows(s, c, l, srv, cli) && Enabled(s, OpenConnect(c, ok))
    ensures LinkInv(Next(s, OpenConnect(c, ok)), c)
  {
    ConnectOk(l, srv, cli, ok);
    assert Shows(Next(s, OpenConnect(c, ok)), c, l.(live := ok, phase := if ok then Connected else Failed), srv, cli);
  }

  lemma OwnSend(s: State, c: ConnId, ok: bool, l: Link, srv: Option<Devices>, cli: Option<Client.ClientDevice>)
    requires LinkOk(l, srv, cli) && Shows(s, c, l, srv, cli) && Enabled(s, OpenSend(c, ok))
    ensures LinkInv(Next(s, OpenSend(c, ok)), c)
  {
    SendOk(l, srv, cli, ok);
    assert Shows(Next(s, OpenSend(c, ok)), c, PushUp(l, OpenReq(l.serial), ok).(phase := Polling), srv, cli);
  }

  lemma OwnFinish(s: State, c: ConnId, l: Link, srv: Option<Devices>, cli: Option<Client.ClientDevice>)
    requires LinkOk(l, srv, cli) && Shows(s, c, l, srv, cli) && Enabled(s, OpenFinish(c))
    ensures LinkInv(Next(s, OpenFinish(c)), c)
  {
    var ok := Client.AnsweredOk(s.client, l.serial);
    FinishOk(l, srv, cli, ok);
    assert Shows(Next(s, OpenFinish(c)), c, if ok then l.(phase := Open) else l.(phase := Failed, live := false), srv,
                 if ok then Some(Client.ClientDevice(l.serial, [])) else cli);
  }

  lemma OwnCut(s: State, c: ConnId, l: Link, srv: Option<Devices>, cli: Option<Client.ClientDevice>)
    requires LinkOk(l, srv, cli) && Shows(s, c, l, srv, cli)
    ensures LinkInv(Next(s, Cut(c)), c)
  {
    CutOk(l, srv, cli);
    assert Shows(Next(s, Cut(c)), c, l.(live := false), srv, cli);
  }

  lemma OwnWrite(s: State, c: ConnId, payload: Bytes, ok: bool,
                 l: Link, srv: Option<Devices>, cli: Option<Client.ClientDevice>)
    requires LinkOk(l, srv, cli) && Shows(s, c, l, srv, cli) && Enabled(s, Write(c, payload, ok))
    ensures LinkInv(Next(s, Write(c, payload, ok)), c)
  {
    var p := RawData(l.serial, payload);
    RawDataViews(l.serial, payload);
    PushUpOk(l, srv, p, ok);
    var l' := if ok && l.live then PushUp(l, p, ok).(sent := l.sent + payload) else l;
    assert Shows(Next(s, Write(c, payload, ok)), c, l', srv, cli);
  }

  lemma OwnCloseSend(s: State, c: ConnId, ok: bool, l: Link, srv: Option<Devices>, cli: Option<Client.ClientDevice>)
    requires LinkOk(l, srv, cli) && Shows(s, c, l, srv, cli) && Enabled(s, CloseSend(c, ok))
    ensures LinkInv(Next(s, CloseSend(c, ok)), c)
  {
    var p := CloseReq(l.serial);
    RequestViews(l.serial);
    PushUpOk(l, srv, p, ok);
    assert l.sent + [] == l.sent;
    assert Shows(Next(s, CloseSend(c, ok)), c, PushUp(l, p, ok), srv, cli);
  }

  lemma OwnCloseErase(s: State, c: ConnId, l: Link, srv: Option<Devices>, cli: Option<Client.ClientDevice>)
    requires LinkOk(l, srv, cli) && Shows(s, c, l, srv, cli) && Enabled(s, CloseErase(c))
    ensures LinkInv(Next(s, CloseErase(c)), c)
  {
    assert Shows(Next(s, CloseErase(c)), c, l, srv, None);
  }

  lemma OwnRead(s: State, c: ConnId, size: nat, l: Link, srv: Option<Devices>, d: Client.ClientDevice)
    requires LinkOk(l, srv, Some(d)) && Shows(s, c, l, srv, Some(d))
    ensures Enabled(s, Read(c, size)) && LinkInv(Next(s, Read(c, size)), c)
  {
    var out := Client.Readable(s.client, c, size);
    var rest := d.buffer[|out|..];
    Client.ReadSplits(s.client, c, size);
    ReadOk(l, d, out, rest);
    assert Shows(Next(s, Read(c, size)), c, l.(read := l.read + out), srv, Some(d.(buffer := rest)));
  }

  lemma OwnClient(s: State, c: ConnId, l: Link, srv: Option<Devices>, cli: Option<Client.ClientDevice>)
    requires LinkOk(l, srv, cli) && Shows(s, c, l, srv, cli) && Enabled(s, ClientDeliver(c))
    ensures LinkInv(Next(s, ClientDeliver(c)), c)
  {
    var p := l.down[0];
    var cli' := At(Client.Callback(s.client, c, p).devices, c);
    ClientOwn(s.client, c, p, cli, cli');
    TakeDownOk(l, cli, cli');
    TakeDownUp(l, srv, cli.Some?);
    assert Shows(Next(s, ClientDeliver(c)), c, AfterClient(l, cli.Some?), srv, cli');
  }

  lemma ClientOwn(m: Client.Maps, c: ConnId, p: Packet,
                  cli: Option<Client.ClientDevice>, cli': Option<Client.ClientDevice>)
    requires cli == At(m.devices, c) && cli' == At(Client.Callback(m, c, p).devices, c)
    ensures match ClientView(p)
            case FromDevice(_, x) =>
              cli' == if cli.Some? then Some(cli.value.(buffer := cli.value.buffer + x)) else None
            case _ => cli' == cli || cli' == None
  {
  }

  lemma TakeDownUp(l: Link, srv: Option<Devices>, registered: bool)
    requires UpOk(l, srv) && l.down != []
    ensures UpOk(AfterClient(l, registered), srv)
  {
  }

  lemma OwnBufToDev(s: State, c: ConnId, n: int, ok: bool,
                    l: Link, srv: Option<Devices>, cli: Option<Client.ClientDevice>)
    requires LinkOk(l, srv, cli) && Shows(s, c, l, srv, cli) && Enabled(s, BufToDev(c, l.serial, n, ok))
    ensures LinkInv(Next(s, BufToDev(c, l.serial, n, ok)), c)
  {
    var d := srv.value[l.serial];
    var srv' := Some(srv.value[l.serial := Server.AfterWrite(d, n)]);
    BufToDevOk(l, srv, srv', n, ok);
    var l' := l.(written := l.written + Server.Written(d, n));
    AnswerViews(l.serial, false);
    assert DownOk(l', cli);
    PushDownOk(l', cli, ErrorNote(l.serial), ok);
    assert Shows(Next(s, BufToDev(c, l.serial, n, ok)), c, AfterWrite(l, l.serial, d, n, ok), srv', cli);
  }

  lemma OwnDevToNet(s: State, c: ConnId, chunk: Bytes, ok: bool,
                    l: Link, srv: Option<Devices>, cli: Option<Client.ClientDevice>)
    requires LinkOk(l, srv, cli) && Shows(s, c, l, srv, cli) && Enabled(s, DevToNet(c, l.serial, chunk, ok))
    ensures LinkInv(Next(s, DevToNet(c, l.serial, chunk, ok)), c)
  {
    DevToNetOk(l, cli, chunk, ok);
    var l' := PushDown(Produced(l, chunk, ok), RawData(l.serial, chunk), ok);
    assert UpOk(l', srv);
    assert Shows(Next(s, DevToNet(c, l.serial, chunk, ok)), c, l', srv, cli);
  }

  lemma OwnDisconnected(s: State, c: ConnId, l: Link, srv: Option<Devices>, cli: Option<Client.ClientDevice>)
    requires LinkOk(l, srv, cli) && Shows(s, c, l, srv, cli) && Enabled(s, Disconnected(c))
    ensures LinkInv(Next(s, Disconnected(c)), c)
  {
    var l' := l.(up := [], lost := l.lost + Pending(l.serial, srv) + UpPayload(l.up));
    DisconnectedOk(l, srv);
    DisconnectedView(s, c, l, srv, cli, Pending(l.serial, srv));
    DownSame(l, l', cli);
  }

  lemma DownSame(l: Link, l': Link, cli: Option<Client.ClientDevice>)
    requires DownOk(l, cli)
    requires l' == l.(up := l'.up, lost := l'.lost)
    ensures DownOk(l', cli)
  {
  }

  lemma DisconnectedView(s: State, c: ConnId, l: Link, srv: Option<Devices>, cli: Option<Client.ClientDevice>, b: Bytes)
    requires Shows(s, c, l, srv, cli) && Enabled(s, Disconnected(c)) && b == Pending(l.serial, srv)
    ensures Shows(Next(s, Disconnected(c)), c, l.(up := [], lost := l.lost + b + UpPayload(l.up)), None, cli)
  {
    assert Pending(l.serial, At(s.server.devmap, c)) == b;
  }

  lemma OwnServer(s: State, c: ConnId, canOpen: bool, ok: bool,
                  l: Link, srv: Option<Devices>, cli: Option<Client.ClientDevice>)
    requires LinkOk(l, srv, cli) && Shows(s, c, l, srv, cli) && Enabled(s, ServerDeliver(c, canOpen, ok))
    ensures LinkInv(Next(s, ServerDeliver(c, canOpen, ok)), c)
  {
    var p := l.up[0];
    var r := Server.Callback(s.server, c, p, canOpen);
    var l' := Handled(l, l.lost + LostBy(s.server, c, p), l.granted || GrantedBy(s.server, c, p, canOpen));
    var srv' := At(r.table.devmap, c);
    ServerUp(s.server, l, c, canOpen);
    HandledDown(l, cli, l'.lost, l'.granted);
    ServerAnswer(s.server, l, c, canOpen);
    var l'' := if r.answer.Some? then PushDown(l', r.answer.value, ok) else l';
    if r.answer.Some? {
      PushDownOk(l', cli, r.answer.value, ok);
      PushDownUp(l', srv', r.answer.value, ok);
    }
    assert Shows(Next(s, ServerDeliver(c, canOpen, ok)), c, l'', srv', cli);
  }

  lemma HandledDown(l: Link, cli: Option<Client.ClientDevice>, lost: Bytes, granted: bool)
    requires DownOk(l, cli) && l.up != [] && (l.granted ==> granted)
    ensures DownOk(Handled(l, lost, granted), cli)
  {
    forall i | 0 <= i < |l.down| ensures DownShape(l.down[i], l.serial, granted) {
      assert DownShape(l.down[i], l.serial, l.granted);
    }
  }

  lemma PushDownUp(l: Link, srv: Option<Devices>, p: Packet, ok: bool)
    requires UpOk(l, srv)
    ensures UpOk(PushDown(l, p, ok), srv)
  {
  }

  lemma ServerUp(t: Table<Server.ServerDevice>, l: Link, c: ConnId, canOpen: bool)
    requires UpOk(l, At(t.devmap, c)) && l.up != []
    ensures var p := l.up[0];
            UpOk(Handled(l, l.lost + LostBy(t, c, p), l.granted || GrantedBy(t, c, p, canOpen)),
                 At(Server.Callback(t, c, p, canOpen).table.devmap, c))
  {
    var p, srv := l.up[0], At(t.devmap, c);
    var srv' := At(Server.Callback(t, c, p, canOpen).table.devmap, c);
    var lost, granted := l.lost + LostBy(t, c, p), l.granted || GrantedBy(t, c, p, canOpen);
    assert UpShape(p, l.serial, true);
    assert Has(t, c, l.serial) == HasDev(l, srv);
    match ServerView(p) {
      case ToDevice(_, x) =>
        if HasDev(l, srv) {
          assert lost + Pending(l.serial, srv') == (l.lost + Pending(l.serial, srv)) + x;
        } else {
          assert lost + Pending(l.serial, srv') == (l.lost + []) + x;
        }
      case OpenRequest(_) =>
        assert IsOpenRequest(l.up[0]);
        assert lost + Pending(l.serial, srv') == [];
      case CloseRequest(_) =>
        assert lost + Pending(l.serial, srv') == l.lost + Pending(l.serial, srv);
      case _ =>
    }
    HandledOk(l, srv, srv', lost, granted);
  }

  lemma ServerAnswer(t: Table<Server.ServerDevice>, l: Link, c: ConnId, canOpen: bool)
    requires UpOk(l, At(t.devmap, c)) && l.up != []
    ensures var p := l.up[0];
            var answer := Server.Callback(t, c, p, canOpen).answer;
            answer.Some? ==> DownShape(answer.value, l.serial, l.granted || GrantedBy(t, c, p, canOpen))
                             && !ClientView(answer.value).FromDevice?
  {
    var p := l.up[0];
    assert UpShape(p, l.serial, true);
    AnswerViews(l.serial, AddSucceeds(t, c, l.serial, canOpen));
  }

  predicate ServerSide(a: Step) { a.ServerDeliver? || a.BufToDev? || a.DevToNet? || a.Disconnected? }

  lemma OwnServerSide(s: State, a: Step, c: ConnId, l: Link, srv: Option<Devices>, cli: Option<Client.ClientDevice>)
    requires LinkOk(l, srv, cli) && c == a.c && Shows(s, c, l, srv, cli) && Enabled(s, a) && ServerSide(a)
    ensures LinkInv(Next(s, a), c)
  {
    match a
    case ServerDeliver(_, canOpen, ok) => OwnServer(s, c, canOpen, ok, l, srv, cli);
    case BufToDev(_, ser, n, ok) =>
      assert ser in srv.value;
      OwnBufToDev(s, c, n, ok, l, srv, cli);
    case DevToNet(_, ser, chunk, ok) =>
      assert ser in srv.value;
      OwnDevToNet(s, c, chunk, ok, l, srv, cli);
    case Disconnected(_) => OwnDisconnected(s, c, l, srv, cli);
  }

  lemma OwnClientSide(s: State, a: Step, c: ConnId, l: Link, srv: Option<Devices>, cli: Option<Client.ClientDevice>)
    requires LinkOk(l, srv, cli) && c == a.c && Shows(s, c, l, srv, cli)
    requires Enabled(s, a) && !ServerSide(a) && !a.OpenReset?
    ensures LinkInv(Next(s, a), c)
  {
    match a
    case OpenConnect(_, ok) => OwnConnect(s, c, ok, l, srv, cli);
    case OpenSend(_, ok) => OwnSend(s, c, ok, l, srv, cli);
    case OpenFinish(_) => OwnFinish(s, c, l, srv, cli);
    case Write(_, payload, ok) => OwnWrite(s, c, payload, ok, l, srv, cli);
    case Read(_, size) => OwnRead(s, c, size, l, srv, cli.value);
    case CloseSend(_, ok) => OwnCloseSend(s, c, ok, l, srv, cli);
    case CloseErase(_) => OwnCloseErase(s, c, l, srv, cli);
    case ClientDeliver(_) => OwnClient(s, c, l, srv, cli);
    case Cut(_) => OwnCut(s, c, l, srv, cli);
  }

  lemma OwnLink(s: State, a: Step)
    requires LinksInv(s) && Enabled(s, a)
    ensures LinkInv(Next(s, a), a.c)
  {
    var c := a.c;
    if a.OpenReset? {
      OwnReset(s, c, a.serial);
    } else {
      var l, srv, cli := s.links[c], At(s.server.devmap, c), At(s.client.devices, c);
      assert LinkInv(s, c);
      if ServerSide(a) { OwnServerSide(s, a, c, l, srv, cli); } else { OwnClientSide(s, a, c, l, srv, cli); }
    }
  }

  lemma CallbackKeys(s: State, a: Step)
    requires Enabled(s, a) && a.c in s.links
    requires s.server.devmap.Keys <= s.links.Keys && s.client.devices.Keys <= s.links.Keys
    ensures a.ServerDeliver? ==>
              Server.Callback(s.server, a.c, s.links[a.c].up[0], a.canOpen).table.devmap.Keys <= s.links.Keys
    ensures a.ClientDeliver? ==> Client.Callback(s.client, a.c, s.links[a.c].down[0]).devices.Keys <= s.links.Keys
  {
  }

  lemma KeysStep(s: State, a: Step)
    requires s.server.devmap.Keys <= s.links.Keys && s.client.devices.Keys <= s.links.Keys && Enabled(s, a)
    ensures var s' := Next(s, a);
            && s'.links.Keys == s.links.Keys + {a.c}
            && s'.server.devmap.Keys <= s'.links.Keys && s'.client.devices.Keys <= s'.links.Keys
  {
    if a.ServerDeliver? || a.ClientDeliver? { CallbackKeys(s, a); }
  }

  lemma LinksStep(s: State, a: Step)
    requires LinksInv(s) && Enabled(s, a)
    ensures LinksInv(Next(s, a))
  {
    var s' := Next(s, a);
    KeysStep(s, a);
    OwnLink(s, a);
    forall c | c in s'.links ensures LinkInv(s', c) {
      if c != a.c {
        Isolation(s, a, c);
        assert LinkInv(s, c);
      }
    }
  }

  // ---------------------------------------------------------------- the server's map

  /** No open request ever finds its device already there: a connection sends one, as its first packet. */
  lemma OpenFindsNothing(s: State, c: ConnId)
    requires LinksInv(s) && c in s.links && s.links[c].up != [] && ServerView(s.links[c].up[0]).OpenRequest?
    ensures !Has(s.server, c, ServerView(s.links[c].up[0]).serial)
  {
    assert LinkInv(s, c);
    assert UpShape(s.links[c].up[0], s.links[c].serial, true);
    assert IsOpenRequest(s.links[c].up[0]);
  }

  lemma ServerTable(t: Table<Server.ServerDevice>, c: ConnId, p: Packet, canOpen: bool)
    requires Exclusive(t) && !t.mutexHeld
    requires ServerView(p).OpenRequest? ==> !Has(t, c, ServerView(p).serial)
    ensures Exclusive(Server.Callback(t, c, p, canOpen).table) && !Server.Callback(t, c, p, canOpen).table.mutexHeld
  {
    match ServerView(p)
    case ToDevice(ser, x) =>
      if Has(t, c, ser) { ExclusiveUpdate(t, c, ser, t.devmap[c][ser].(buffer := t.devmap[c][ser].buffer + x)); }
    case OpenRequest(ser) => ExclusiveAdd(t, c, ser, canOpen, Server.NEW_DEVICE);
    case CloseRequest(ser) => ExclusiveRemove(t, c, ser);
    case _ =>
  }

  lemma InvStep(s: State, a: Step)
    requires Inv(s) && Enabled(s, a)
    ensures Inv(Next(s, a))
  {
    LinksStep(s, a);
    match a
    case ServerDeliver(c, canOpen, _) =>
      var p := s.links[c].up[0];
      if ServerView(p).OpenRequest? { OpenFindsNothing(s, c); }
      ServerTable(s.server, c, p, canOpen);
    case BufToDev(c, ser, n, _) => ExclusiveUpdate(s.server, c, ser, Server.AfterWrite(s.server.devmap[c][ser], n));
    case Disconnected(c) => ExclusiveDisconnect(s.server, c);
    case _ =>
  }

  lemma {:induction false} InvRun(s: State, steps: seq<Step>)
    requires Inv(s) && Runs(s, steps)
    ensures Inv(Exec(s, steps))
    decreases |steps|
  {
    if steps != [] {
      InvStep(s, steps[0]);
      InvRun(Next(s, steps[0]), steps[1..]);
    }
  }

  lemma InvInit()
    ensures Inv(Init())
  {
  }

  lemma InvReachable(s: State)
    requires Reachable(s)
    ensures Inv(s)
  {
    var s0 := Init();
    var steps :| Runs(s0, steps) && Exec(s0, steps) == s;
    InvInit();
    InvRun(s0, steps);
  }

  // ---------------------------------------------------------------- what holds in every reachable state

  /**
   Upstream conservation. Of everything a connection's bindy_write calls got through, in order: the device has
   accepted a first part, the server has discarded or still buffers the next, the rest is in the channel. As
   long as the device is open nothing has been discarded.
   */
  lemma UpstreamConservation(s: State, c: ConnId)
    requires Reachable(s) && c in s.links
    ensures var l := s.links[c];
            && l.written + (l.lost + Pending(l.serial, At(s.server.devmap, c))) + UpPayload(l.up) == l.sent
            && (Has(s.server, c, l.serial) ==>
                  l.written + s.server.devmap[c][l.serial].buffer + UpPayload(l.up) == l.sent)
            && l.written <= l.sent
  {
    InvReachable(s);
    assert LinkInv(s, c);
    var l := s.links[c];
    if Has(s.server, c, l.serial) {
      assert l.lost + s.server.devmap[c][l.serial].buffer == s.server.devmap[c][l.serial].buffer;
    }
  }

  /**
   Downstream order. What bindy_read has returned, with what the client still buffers, is the chunks delivered
   while registered, back to back; those chunks, with the ones in the channel, stand at increasing positions of
   what the device produced, each one whole.
   Exactly as many chunks are missing as sends failed or arrived while nothing was registered; if none did,
   every chunk is there.
   */
  lemma DownstreamOrder(s: State, c: ConnId)
    requires Reachable(s) && c in s.links
    ensures var l := s.links[c];
            && (c in s.client.devices ==> l.read + s.client.devices[c].buffer == Join(l.delivered))
            && l.read <= Join(l.delivered)
            && (exists at :: Picks(l.delivered + DownChunks(l.down), l.produced, at))
            && |l.delivered| + |DownChunks(l.down)| + l.refused + l.unheard == |l.produced|
            && (l.refused + l.unheard == 0 <==> l.delivered + DownChunks(l.down) == l.produced)
  {
    InvReachable(s);
    assert LinkInv(s, c);
    var l := s.links[c];
    var flow := l.delivered + DownChunks(l.down);
    SubsequenceWhole(flow, l.produced);
    var at := SubsequencePicks(flow, l.produced);
    assert Picks(flow, l.produced, at);
  }

  /**
   Exclusive ownership: the server's device locks are exactly the serials in its map, no serial is under two
   connections, and a connection only ever has the device its bindy_open asked for.
   */
  lemma Ownership(s: State, c: ConnId, ser: Serial)
    requires Reachable(s)
    ensures Exclusive(s.server)
    ensures Has(s.server, c, ser) ==> c in s.links && ser == s.links[c].serial && s.links[c].granted
  {
    InvReachable(s);
    if Has(s.server, c, ser) { assert LinkInv(s, c); }
  }

  /**
   No packet of either program trips the other: the server's asserts hold, its callback throws exactly on data
   for a device that is not there, and the client never reads past the end of a packet.
   */
  lemma PacketsAccepted(s: State, c: ConnId, canOpen: bool)
    requires Reachable(s) && c in s.links
    ensures var up := s.links[c].up;
            up != [] ==>
              var end := Server.Callback(s.server, c, up[0], canOpen).end;
              && (end == Server.Returned || end == Server.Threw)
              && (end == Server.Threw <==> ServerView(up[0]).ToDevice? && !Has(s.server, c, s.links[c].serial))
    ensures var down := s.links[c].down;
            down != [] ==> !ClientView(down[0]).ClientThrows? && !ClientView(down[0]).ClientUndefined?
  {
    InvReachable(s);
    assert LinkInv(s, c);
    var l := s.links[c];
    if l.up != [] { assert UpShape(l.up[0], l.serial, true); }
    if l.down != [] { assert DownShape(l.down[0], l.serial, l.granted); }
  }

  /** The missing unlock in addDevice is never reached by this client: map_mutex is free in every reachable state. */
  lemma MapMutexFree(s: State)
    requires Reachable(s)
    ensures !s.server.mutexHeld
  {
    InvReachable(s);
  }
}
