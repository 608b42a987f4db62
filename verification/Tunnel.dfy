/**
 The two-sided tunnel: one client process with any number of threads and connections, one server, a reliable
 FIFO channel of byte packets in each direction of every connection, and serial devices behind the server.

 A step is one atomic section of either program (Client, Server) or something the environment does. A send
 that fails delivers nothing. The history fields of a Link (sent to read) record what went through and are never
 looked at by a step.
 */
module Tunnel {
  import opened Options
  import opened Codec
  import opened DeviceTable
  import opened Streams
  import Client
  import Server

  /** How far the bindy_open that made the connection has got. */
  datatype Phase =
    | Preparing   // open_ok[serial] reset, not connected yet
    | Connected
    | Polling     // open request sent, or given up sending it
    | Open        // returned the connection id and registered a Device
    | Failed

  /** One connection. */
  datatype Link = Link(
    serial: Serial, phase: Phase,
    live: bool,                // send_data can succeed
    up: seq<Packet>, down: seq<Packet>,
    granted: bool,             // addDevice has reported the device present to this connection
    sent: Bytes,               // payloads of successful bindy_write sends
    written: Bytes,            // bytes the serial device accepted
    lost: Bytes,               // bytes the server discarded: no device, or device closed before writing them
    produced: seq<Bytes>,      // chunks read from the serial device
    delivered: seq<Bytes>,     // chunks that arrived while the connection was registered
    refused: nat,              // chunks whose send failed
    unheard: nat,              // chunks that arrived while it was not
    read: Bytes)               // bytes handed out by bindy_read

  datatype State = State(
    client: Client.Maps,
    server: Table<Server.ServerDevice>,
    links: map<ConnId, Link>,
    heard: set<ConnId>)        // opens to which a positive answer for their serial arrived since their reset

  function Init(): State {
    State(Client.Maps(map[], map[], map[]), Table(map[], {}, false), map[], {})
  }

  datatype Step =
    // bindy_open
    | OpenReset(c: ConnId, serial: Serial)
    | OpenConnect(c: ConnId, ok: bool)   // not ok: connect, or a send attempt, threw past the retry loop
    | OpenSend(c: ConnId, ok: bool)
    | OpenFinish(c: ConnId)
    // bindy_write, bindy_read, bindy_close
    | Write(c: ConnId, payload: Bytes, ok: bool)
    | Read(c: ConnId, size: nat)
    | CloseSend(c: ConnId, ok: bool)
    | CloseErase(c: ConnId)
    // the two callbacks
    | ClientDeliver(c: ConnId)
    | ServerDeliver(c: ConnId, canOpen: bool, ok: bool)
    // the server's worker threads
    | BufToDev(c: ConnId, s: Serial, n: int, ok: bool)
    | DevToNet(c: ConnId, s: Serial, chunk: Bytes, ok: bool)
    // a connection going down at either end, and the server noticing
    | Cut(c: ConnId)
    | Disconnected(c: ConnId)

  predicate Enabled(s: State, a: Step) {
    if a.OpenReset? then a.c !in s.links
    else
      a.c in s.links &&
      var l := s.links[a.c];
      match a
      case OpenReset(_, _) => false
      case OpenConnect(_, _) => l.phase == Preparing
      case OpenSend(_, _) => l.phase == Connected
      case OpenFinish(_) => l.phase == Polling
      case Write(_, _, _) => l.phase == Open
      case Read(c, _) => c in s.client.devices
      case CloseSend(c, _) => c in s.client.devices
      case CloseErase(c) => c in s.client.devices
      case ClientDeliver(_) => l.down != []
      case ServerDeliver(_, _, _) => l.up != [] && !s.server.mutexHeld
      case BufToDev(c, ser, n, _) =>
        Has(s.server, c, ser) && !s.server.devmap[c][ser].shouldExit && -1 <= n <= |s.server.devmap[c][ser].buffer|
      case DevToNet(c, ser, chunk, _) =>
        Has(s.server, c, ser) && !s.server.devmap[c][ser].shouldExit && 0 < |chunk| <= Server.READ_BUF_SIZE
      case Cut(_) => true
      case Disconnected(_) => !l.live && !s.server.mutexHeld
  }

  function PushUp(l: Link, p: Packet, ok: bool): Link { if ok && l.live then l.(up := l.up + [p]) else l }
  function PushDown(l: Link, p: Packet, ok: bool): Link { if ok && l.live then l.(down := l.down + [p]) else l }

  function Fresh(serial: Serial): Link {
    Link(serial, Preparing, false, [], [], false, [], [], [], [], [], 0, 0, [])
  }

  /** The devices of one connection, by serial. */
  type Devices = map<Serial, Server.ServerDevice>

  function At<T>(m: map<ConnId, T>, c: ConnId): Option<T> { if c in m then Some(m[c]) else None }

  /** net_to_dev_buffer of the device a connection has under `serial`, if it has one. */
  function Pending(serial: Serial, srv: Option<Devices>): Bytes {
    if srv.Some? && serial in srv.value then srv.value[serial].buffer else []
  }

  /** What the server discards while handling a packet. */
  function LostBy(t: Table<Server.ServerDevice>, c: ConnId, p: Packet): Bytes {
    match ServerView(p)
    case ToDevice(s, payload) => if Has(t, c, s) then [] else payload
    case CloseRequest(s) => Pending(s, At(t.devmap, c))
    case _ => []
  }

  function GrantedBy(t: Table<Server.ServerDevice>, c: ConnId, p: Packet, canOpen: bool): bool {
    match ServerView(p) case OpenRequest(s) => AddSucceeds(t, c, s, canOpen) case _ => false
  }

  function AfterServer(l: Link, t: Table<Server.ServerDevice>, c: ConnId, canOpen: bool, ok: bool): Link
    requires l.up != []
  {
    var p := l.up[0];
    var l' := l.(up := l.up[1..],
                 lost := l.lost + LostBy(t, c, p), granted := l.granted || GrantedBy(t, c, p, canOpen));
    match Server.Callback(t, c, p, canOpen).answer case Some(reply) => PushDown(l', reply, ok) case None => l'
  }

  function AfterClient(l: Link, registered: bool): Link
    requires l.down != []
  {
    var l' := l.(down := l.down[1..]);
    match ClientView(l.down[0])
    case FromDevice(_, payload) => 
      if registered then l'.(delivered := l.delivered + [payload]) else l'.(unheard := l.unheard + 1)
    case _ => l'
  }

  function AfterWrite(l: Link, ser: Serial, d: Server.ServerDevice, n: int, ok: bool): Link {
    var l' := l.(written := l.written + Server.Written(d, n));
    if Server.AfterWrite(d, n).shouldExit && !d.shouldExit then PushDown(l', ErrorNote(ser), ok) else l'
  }

  /** A chunk has been read from the device; it is refused if its send fails. */
  function Produced(l: Link, chunk: Bytes, ok: bool): Link {
    l.(produced := l.produced + [chunk], refused := if ok && l.live then l.refused else l.refused + 1)
  }

  /** The opens that hear a packet as a positive answer: all those for its serial, whatever the connection. */
  function Hearers(s: State, p: Packet): set<ConnId> {
    match ClientView(p)
    case OpenAnswer(serial, true) => set c | c in s.links && s.links[c].serial == serial
    case _ => {}
  }

  function Next(s: State, a: Step): State
    requires Enabled(s, a)
  {
    match a
    case OpenReset(c, serial) => s.(client := Client.OpenReset(s.client, serial), links := s.links[c := Fresh(serial)])
    case OpenConnect(c, ok) =>
      s.(links := s.links[c := s.links[c].(live := ok, phase := if ok then Connected else Failed)])
    case OpenSend(c, ok) =>
      var l := s.links[c];
      s.(links := s.links[c := PushUp(l, OpenReq(l.serial), ok).(phase := Polling)])
    case OpenFinish(c) =>
      var l := s.links[c];
      var ok := Client.AnsweredOk(s.client, l.serial);
      s.(client := Client.OpenFinish(s.client, c, l.serial),
         links := s.links[c := if ok then l.(phase := Open) else l.(phase := Failed, live := false)])
    case Write(c, payload, ok) =>
      var l := s.links[c];
      s.(links := s.links[c :=
        if ok && l.live then PushUp(l, RawData(l.serial, payload), ok).(sent := l.sent + payload) else l])
    case Read(c, size) =>
      var l := s.links[c];
      s.(client := Client.AfterRead(s.client, c, size),
         links := s.links[c := l.(read := l.read + Client.Readable(s.client, c, size))])
    case CloseSend(c, ok) =>
      var l := s.links[c];
      s.(links := s.links[c := PushUp(l, CloseReq(s.client.devices[c].serial), ok)])
    case CloseErase(c) => s.(client := Client.CloseErase(s.client, c))
    case ClientDeliver(c) =>
      var l := s.links[c];
      s.(client := Client.Callback(s.client, c, l.down[0]),
         links := s.links[c := AfterClient(l, c in s.client.devices)],
         heard := s.heard + Hearers(s, l.down[0]))
    case ServerDeliver(c, canOpen, ok) =>
      var l := s.links[c];
      s.(server := Server.Callback(s.server, c, l.up[0], canOpen).table,
         links := s.links[c := AfterServer(l, s.server, c, canOpen, ok)])
    case BufToDev(c, ser, n, ok) =>
      var l, d := s.links[c], s.server.devmap[c][ser];
      s.(server := Put(s.server, c, ser, Server.AfterWrite(d, n)), links := s.links[c := AfterWrite(l, ser, d, n, ok)])
    case DevToNet(c, ser, chunk, ok) =>
      var l := s.links[c];
      s.(links := s.links[c := PushDown(Produced(l, chunk, ok), RawData(ser, chunk), ok)])
    case Cut(c) => s.(links := s.links[c := s.links[c].(live := false)])
    case Disconnected(c) =>
      var l := s.links[c];
      s.(server := RemoveConnection(s.server, c),
         links := s.links[c :=
           l.(up := [], lost := l.lost + Pending(l.serial, At(s.server.devmap, c)) + UpPayload(l.up))])
  }

  ghost predicate Runs(s: State, steps: seq<Step>)
    decreases |steps|
  {
    steps == [] || (Enabled(s, steps[0]) && Runs(Next(s, steps[0]), steps[1..]))
  }

  ghost function Exec(s: State, steps: seq<Step>): State
    requires Runs(s, steps)
    decreases |steps|
  {
    if steps == [] then s else Exec(Next(s, steps[0]), steps[1..])
  }

  ghost predicate Reachable(s: State) {
    exists steps :: Runs(Init(), steps) && Exec(Init(), steps) == s
  }
}
