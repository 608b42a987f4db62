/**
 The inductive invariant of the tunnel. Everything about one connection is a predicate on its Link and on what
 the server and the client hold under its id, so a step of one connection cannot disturb another.
 */
module TunnelInvariant {
  import opened Options
  import opened Codec
  import opened DeviceTable
  import opened Streams
  import opened Tunnel
  import Client
  import Server

  // ---------------------------------------------------------------- one connection

  predicate HasDev(l: Link, srv: Option<Devices>) { srv.Some? && l.serial in srv.value }

  predicate IsOpenRequest(p: Packet) { ServerView(p).OpenRequest? }

  /** Packets the client library sends on this connection: its own serial, and an open request only in front. */
  predicate UpShape(p: Packet, serial: Serial, first: bool) {
    match ServerView(p)
    case ToDevice(s, _) => s == serial
    case OpenRequest(s) => s == serial && first
    case CloseRequest(s) => s == serial
    case _ => false
  }

  /** Nothing has passed upstream yet. */
  predicate Untouched(l: Link, srv: Option<Devices>) {
    l.written == [] && l.lost == [] && !HasDev(l, srv)
  }

  ghost predicate UpOk(l: Link, srv: Option<Devices>) {
    && (forall i :: 0 <= i < |l.up| ==> UpShape(l.up[i], l.serial, i == 0))
    && (l.up != [] && IsOpenRequest(l.up[0]) ==> Untouched(l, srv))
    && (l.phase == Preparing || l.phase == Connected ==> l.up == [] && l.sent == [] && Untouched(l, srv))
    && (srv.Some? ==> srv.value.Keys <= {l.serial})
    && (HasDev(l, srv) ==> l.lost == [] && l.granted)
    && l.written + (l.lost + Pending(l.serial, srv)) + UpPayload(l.up) == l.sent
  }

  /** Packets the server sends on this connection: a positive answer only if the device was granted. */
  predicate DownShape(p: Packet, serial: Serial, granted: bool) {
    match ClientView(p)
    case FromDevice(s, _) => s == serial
    case OpenAnswer(s, ok) => s == serial && (ok ==> granted)
    case DeviceGone(s) => s == serial
    case _ => false
  }

  ghost predicate DownOk(l: Link, cli: Option<Client.ClientDevice>) {
    && (forall i :: 0 <= i < |l.down| ==> DownShape(l.down[i], l.serial, l.granted))
    && Subsequence(l.delivered + DownChunks(l.down), l.produced)
    && |l.delivered| + |DownChunks(l.down)| + l.refused + l.unheard == |l.produced|
    && l.read <= Join(l.delivered)
    && (l.phase != Open ==> l.delivered == [] && l.read == [])
    && (cli.Some? ==> l.phase == Open && cli.value.serial == l.serial && l.read + cli.value.buffer == Join(l.delivered))
  }

  ghost predicate LinkOk(l: Link, srv: Option<Devices>, cli: Option<Client.ClientDevice>) {
    UpOk(l, srv) && DownOk(l, cli)
  }

  // ---------------------------------------------------------------- opening

  lemma FreshOk(serial: Serial)
    ensures LinkOk(Fresh(serial), None, None)
  {
  }

  lemma ConnectOk(l: Link, srv: Option<Devices>, cli: Option<Client.ClientDevice>, ok: bool)
    requires LinkOk(l, srv, cli) && l.phase == Preparing
    ensures LinkOk(l.(live := ok, phase := if ok then Connected else Failed), srv, cli)
  {
  }

  lemma SendOk(l: Link, srv: Option<Devices>, cli: Option<Client.ClientDevice>, ok: bool)
    requires LinkOk(l, srv, cli) && l.phase == Connected
    ensures LinkOk(PushUp(l, OpenReq(l.serial), ok).(phase := Polling), srv, cli)
  {
    OpenSendOk(l, srv, ok);
  }

  lemma FinishOk(l: Link, srv: Option<Devices>, cli: Option<Client.ClientDevice>, ok: bool)
    requires LinkOk(l, srv, cli) && l.phase == Polling
    ensures LinkOk(if ok then l.(phase := Open) else l.(phase := Failed, live := false), srv,
                   if ok then Some(Client.ClientDevice(l.serial, [])) else cli)
  {
  }

  lemma CutOk(l: Link, srv: Option<Devices>, cli: Option<Client.ClientDevice>)
    requires LinkOk(l, srv, cli)
    ensures LinkOk(l.(live := false), srv, cli)
  {
  }

  // ---------------------------------------------------------------- upstream steps

  lemma PushUpOk(l: Link, srv: Option<Devices>, p: Packet, ok: bool)
    requires UpOk(l, srv) && l.phase != Preparing && l.phase != Connected && UpShape(p, l.serial, false)
    ensures var l' := PushUp(l, p, ok);
            UpOk(if l' != l then l'.(sent := l.sent + Payload(p)) else l, srv)
  {
    var l' := PushUp(l, p, ok);
    if l' != l {
      UpPayloadPush(l.up, p);
      Assoc(l.written + (l.lost + Pending(l.serial, srv)), UpPayload(l.up), Payload(p));
    }
  }

  lemma OpenSendOk(l: Link, srv: Option<Devices>, ok: bool)
    requires UpOk(l, srv) && l.phase == Connected
    ensures UpOk(PushUp(l, OpenReq(l.serial), ok).(phase := Polling), srv)
  {
    RequestViews(l.serial);
    var one: seq<Packet> := [OpenReq(l.serial)];
    assert one[1..] == [];
    assert l.up + [OpenReq(l.serial)] == [OpenReq(l.serial)];
    assert UpPayload([OpenReq(l.serial)]) == [];
  }

  /** The shapes of a queue survive taking its first packet off. */
  lemma UpTail(l: Link, srv: Option<Devices>)
    requires UpOk(l, srv) && l.up != []
    ensures forall i :: 0 <= i < |l.up[1..]| ==> UpShape(l.up[1..][i], l.serial, i == 0) && !IsOpenRequest(l.up[1..][i])
    ensures l.written + (l.lost + Pending(l.serial, srv)) + (Payload(l.up[0]) + UpPayload(l.up[1..])) == l.sent
  {
    forall i | 0 <= i < |l.up[1..]|
      ensures UpShape(l.up[1..][i], l.serial, i == 0) && !IsOpenRequest(l.up[1..][i])
    {
      assert l.up[1..][i] == l.up[i + 1];
      assert UpShape(l.up[i + 1], l.serial, false);
    }
  }

  /** The upstream part of a Link after the server has handled its first packet. */
  function Handled(l: Link, lost: Bytes, granted: bool): Link
    requires l.up != []
  {
    l.(up := l.up[1..], lost := lost, granted := granted)
  }

  lemma HandledOk(l: Link, srv: Option<Devices>, srv': Option<Devices>, lost: Bytes, granted: bool)
    requires UpOk(l, srv) && l.up != []
    requires srv'.Some? ==> srv'.value.Keys <= {l.serial}
    requires HasDev(l, srv') ==> lost == [] && granted
    requires lost + Pending(l.serial, srv') == (l.lost + Pending(l.serial, srv)) + Payload(l.up[0])
    ensures UpOk(Handled(l, lost, granted), srv')
  {
    UpTail(l, srv);
    var a, b, x, r := l.written, l.lost + Pending(l.serial, srv), Payload(l.up[0]), UpPayload(l.up[1..]);
    Regroup(a, b, x, r);
  }

  lemma Regroup(a: Bytes, b: Bytes, x: Bytes, r: Bytes)
    ensures a + b + (x + r) == a + (b + x) + r
  {
  }

  lemma BufToDevOk(l: Link, srv: Option<Devices>, srv': Option<Devices>, n: int, ok: bool)
    requires UpOk(l, srv) && HasDev(l, srv)
    requires var d := srv.value[l.serial];
             -1 <= n <= |d.buffer| && srv' == Some(srv.value[l.serial := Server.AfterWrite(d, n)])
    ensures UpOk(AfterWrite(l, l.serial, srv.value[l.serial], n, ok), srv')
  {
    var d := srv.value[l.serial];
    var w, b := Server.Written(d, n), Server.AfterWrite(d, n).buffer;
    assert w + b == d.buffer;
    assert l.lost + d.buffer == d.buffer && l.lost + b == b;
    Assoc(l.written, w, b);
    if l.up != [] && IsOpenRequest(l.up[0]) { assert false; }
  }

  lemma DisconnectedOk(l: Link, srv: Option<Devices>)
    requires UpOk(l, srv)
    ensures UpOk(l.(up := [], lost := l.lost + Pending(l.serial, srv) + UpPayload(l.up)), None)
  {
    var b, r := l.lost + Pending(l.serial, srv), UpPayload(l.up);
    Assoc(l.written, b, r);
    assert b + r + [] == b + r;
    assert l.written + (b + r) + [] == l.sent;
  }

  // ---------------------------------------------------------------- downstream steps

  lemma PushDownOk(l: Link, cli: Option<Client.ClientDevice>, p: Packet, ok: bool)
    requires DownOk(l, cli) && DownShape(p, l.serial, l.granted) && !ClientView(p).FromDevice?
    ensures DownOk(PushDown(l, p, ok), cli)
  {
    DownChunksPush(l.down, p);
    assert DownChunks([p]) == [];
    assert DownChunks(l.down) + [] == DownChunks(l.down);
  }

  lemma DevToNetOk(l: Link, cli: Option<Client.ClientDevice>, chunk: Bytes, ok: bool)
    requires DownOk(l, cli)
    ensures DownOk(PushDown(Produced(l, chunk, ok), RawData(l.serial, chunk), ok), cli)
  {
    var p: Packet := RawData(l.serial, chunk);
    RawDataViews(l.serial, chunk);
    DownChunksPush(l.down, p);
    OneChunk(p);
    var flow := l.delivered + DownChunks(l.down);
    SubsequencePush(flow, l.produced, chunk);
    assert l.delivered + (DownChunks(l.down) + [chunk]) == flow + [chunk];
  }

  lemma OneChunk(p: Packet)
    requires ClientView(p).FromDevice?
    ensures DownChunks([p]) == [ClientView(p).payload]
  {
    assert [p][1..] == [];
  }

  /** The first packet leaves the channel: its chunk is delivered, or dropped if nobody is registered. */
  lemma TakeDownOk(l: Link, cli: Option<Client.ClientDevice>, cli': Option<Client.ClientDevice>)
    requires DownOk(l, cli) && l.down != []
    requires match ClientView(l.down[0])
             case FromDevice(_, x) =>
               cli' == if cli.Some? then Some(cli.value.(buffer := cli.value.buffer + x)) else None
             case _ => cli' == cli || cli' == None
    ensures DownOk(AfterClient(l, cli.Some?), cli')
  {
    var rest := l.down[1..];
    assert forall i :: 0 <= i < |rest| ==> rest[i] == l.down[i + 1];
    match ClientView(l.down[0]) {
      case FromDevice(_, x) =>
        assert l.delivered + ([x] + DownChunks(rest)) == l.delivered + [x] + DownChunks(rest);
        if cli.Some? {
          JoinPush(l.delivered, x);
          Assoc(l.read, cli.value.buffer, x);
        } else {
          SubsequenceDrop(l.delivered, x, DownChunks(rest), l.produced);
        }
      case _ =>
    }
  }

  lemma ReadOk(l: Link, d: Client.ClientDevice, out: Bytes, rest: Bytes)
    requires DownOk(l, Some(d)) && out + rest == d.buffer
    ensures DownOk(l.(read := l.read + out), Some(d.(buffer := rest)))
  {
    Assoc(l.read, out, rest);
  }
}
