/**
 What a successful bindy_open means. open_ok is indexed by serial, not by connection, so the answer to one
 connection's request is heard by every open of the same serial that is under way.
 */
module TunnelHandshake {
  import opened Codec
  import opened DeviceTable
  import opened Tunnel
  import opened TunnelInvariant
  import opened TunnelRuns
  import Client
  import Server

  predicate Opening(p: Phase) { p == Preparing || p == Connected || p == Polling }

  // ---------------------------------------------------------------- what always holds

  /** Some connection for the same serial was granted the device. */
  ghost predicate GrantedSomewhere(s: State, serial: Serial) {
    exists c :: c in s.links && s.links[c].serial == serial && s.links[c].granted
  }

  ghost predicate HandInv(s: State) {
    && (forall c <- s.links ::
          Opening(s.links[c].phase) && Client.AnsweredOk(s.client, s.links[c].serial) ==> c in s.heard)
    && (forall c <- s.links :: s.links[c].phase == Open ==> c in s.heard)
    && (forall c <- s.heard :: c in s.links && GrantedSomewhere(s, s.links[c].serial))
  }

  /** Serial and grant of a connection are never taken back; its phase moves only in bindy_open. */
  lemma LinkGrows(s: State, a: Step, c: ConnId)
    requires Enabled(s, a) && c in s.links
    ensures var l, l' := s.links[c], Next(s, a).links[c];
            && c in Next(s, a).links && l'.serial == l.serial && (l.granted ==> l'.granted)
            && (!a.OpenConnect? && !a.OpenSend? && !a.OpenFinish? ==> l'.phase == l.phase)
  {
    if c != a.c { Isolation(s, a, c); assert At(Next(s, a).links, c) == At(s.links, c); }
  }

  lemma GrantedStays(s: State, a: Step, serial: Serial)
    requires Enabled(s, a) && GrantedSomewhere(s, serial)
    ensures GrantedSomewhere(Next(s, a), serial)
  {
    var c :| c in s.links && s.links[c].serial == serial && s.links[c].granted;
    LinkGrows(s, a, c);
  }

  /** A positive answer on its way always stands for a device the server has opened for that connection. */
  lemma PositiveAnswerBacked(s: State, c: ConnId, i: nat, serial: Serial)
    requires Inv(s) && c in s.links && i < |s.links[c].down|
    requires ClientView(s.links[c].down[i]) == OpenAnswer(serial, true)
    ensures s.links[c].serial == serial && s.links[c].granted
  {
    assert LinkInv(s, c);
    assert DownShape(s.links[c].down[i], s.links[c].serial, s.links[c].granted);
  }

  lemma HeardStep(s: State, a: Step, c: ConnId)
    requires Inv(s) && HandInv(s) && Enabled(s, a) && c in Next(s, a).heard
    ensures c in Next(s, a).links && GrantedSomewhere(Next(s, a), Next(s, a).links[c].serial)
  {
    if c !in s.heard { NewHearer(s, a, c); }
    LinkGrows(s, a, c);
    GrantedStays(s, a, s.links[c].serial);
  }

  lemma NewHearer(s: State, a: Step, c: ConnId)
    requires Inv(s) && Enabled(s, a) && c !in s.heard && c in Next(s, a).heard
    ensures c in s.links && GrantedSomewhere(s, s.links[c].serial)
  {
    HearsAnswer(s, a, c);
    PositiveAnswerBacked(s, a.c, 0, s.links[c].serial);
  }

  /** Only the delivery of a positive answer for its serial adds an open to those that heard one. */
  lemma HearsAnswer(s: State, a: Step, c: ConnId)
    requires Enabled(s, a) && c !in s.heard && c in Next(s, a).heard
    ensures c in s.links && a.ClientDeliver?
    ensures ClientView(s.links[a.c].down[0]) == OpenAnswer(s.links[c].serial, true)
  {
  }

  /** open_ok[serial] goes up in one way only. */
  lemma FlagRaised(s: State, a: Step, serial: Serial)
    requires Enabled(s, a) && !Client.AnsweredOk(s.client, serial) && Client.AnsweredOk(Next(s, a).client, serial)
    ensures a.ClientDeliver? && ClientView(s.links[a.c].down[0]) == OpenAnswer(serial, true)
  {
  }

  lemma OpenOkStep(s: State, a: Step, c: ConnId)
    requires HandInv(s) && Enabled(s, a) && c in Next(s, a).links
    requires Opening(Next(s, a).links[c].phase) && Client.AnsweredOk(Next(s, a).client, Next(s, a).links[c].serial)
    ensures c in Next(s, a).heard
  {
    if c in s.links {
      LinkGrows(s, a, c);
      assert Opening(s.links[c].phase);
      if Client.AnsweredOk(s.client, s.links[c].serial) {
        assert c in s.heard;
      } else {
        FlagRaised(s, a, s.links[c].serial);
      }
    }
  }

  lemma PhaseOpenStep(s: State, a: Step, c: ConnId)
    requires HandInv(s) && Enabled(s, a) && c in Next(s, a).links && Next(s, a).links[c].phase == Open
    ensures c in Next(s, a).heard
  {
    if c in s.links {
      LinkGrows(s, a, c);
      if c != a.c { Isolation(s, a, c); assert At(Next(s, a).links, c) == At(s.links, c); }
    }
  }

  lemma HandStep(s: State, a: Step)
    requires Inv(s) && HandInv(s) && Enabled(s, a)
    ensures HandInv(Next(s, a))
  {
    var s' := Next(s, a);
    forall c | c in s'.links && Opening(s'.links[c].phase) && Client.AnsweredOk(s'.client, s'.links[c].serial)
      ensures c in s'.heard { OpenOkStep(s, a, c); }
    forall c | c in s'.links && s'.links[c].phase == Open ensures c in s'.heard { PhaseOpenStep(s, a, c); }
    forall c | c in s'.heard ensures c in s'.links && GrantedSomewhere(s', s'.links[c].serial) { HeardStep(s, a, c); }
  }

  lemma {:induction false} HandRun(s: State, steps: seq<Step>)
    requires Inv(s) && HandInv(s) && Runs(s, steps)
    ensures HandInv(Exec(s, steps))
    decreases |steps|
  {
    if steps != [] {
      InvStep(s, steps[0]);
      HandStep(s, steps[0]);
      HandRun(Next(s, steps[0]), steps[1..]);
    }
  }

  /**
   The handshake in every reachable state: bindy_open has succeeded on a connection (and any Device is
   registered) only if a positive answer for its serial arrived since its own reset of open_ok, and only if the
   server really opened that device - for some connection.
   */
  lemma HandshakeSound(s: State, c: ConnId)
    requires Reachable(s) && c in s.links
    ensures c in s.client.devices ==> s.links[c].phase == Open
    ensures s.links[c].phase == Open ==> c in s.heard && GrantedSomewhere(s, s.links[c].serial)
  {
    InvReachable(s);
    HandReachable(s);
    assert LinkInv(s, c);
  }

  lemma HandReachable(s: State)
    requires Reachable(s)
    ensures HandInv(s)
  {
    var s0 := Init();
    var steps :| Runs(s0, steps) && Exec(s0, steps) == s;
    InvInit();
    HandRun(s0, steps);
  }

  // ---------------------------------------------------------------- whose answer it is

  /** An answer of this kind, positive or negative, is on its way to the client. */
  ghost predicate AnswerComing(l: Link, granted: bool) {
    exists i :: 0 <= i < |l.down| && ClientView(l.down[i]) == OpenAnswer(l.serial, granted)
  }

  /** An answer of this kind to this connection's open request is on its way, or can still come about. */
  ghost predicate MayAnswer(l: Link, granted: bool) {
    || l.phase == Preparing
    || (l.live && l.phase == Connected)
    || (l.live && l.up != [] && IsOpenRequest(l.up[0]))
    || AnswerComing(l, granted)
  }

  /** Some connection of this serial may still be answered positively. */
  ghost predicate Unsettled(s: State, serial: Serial) {
    exists c :: c in s.links && s.links[c].serial == serial && MayAnswer(s.links[c], true)
  }

  lemma PushDownAnswer(l: Link, p: Packet, ok: bool, granted: bool)
    requires ClientView(p) != OpenAnswer(l.serial, granted) && MayAnswer(PushDown(l, p, ok), granted)
    ensures MayAnswer(l, granted)
  {
    var l' := PushDown(l, p, ok);
    if i :| 0 <= i < |l'.down| && ClientView(l'.down[i]) == OpenAnswer(l.serial, granted) { assert i < |l.down|; }
  }

  lemma PushUpAnswer(l: Link, p: Packet, ok: bool, granted: bool)
    requires !IsOpenRequest(p) && MayAnswer(PushUp(l, p, ok), granted)
    ensures MayAnswer(l, granted)
  {
    if AnswerComing(PushUp(l, p, ok), granted) { assert AnswerComing(l, granted); }
  }

  lemma ServerMayAnswer(t: Table<Server.ServerDevice>, l: Link, c: ConnId, canOpen: bool, ok: bool, granted: bool)
    requires UpOk(l, At(t.devmap, c)) && l.up != [] && MayAnswer(AfterServer(l, t, c, canOpen, ok), granted)
    ensures MayAnswer(l, granted)
  {
    var p := l.up[0];
    var l' := l.(up := l.up[1..],
                 lost := l.lost + LostBy(t, c, p), granted := l.granted || GrantedBy(t, c, p, canOpen));
    var answer := Server.Callback(t, c, p, canOpen).answer;
    assert UpShape(p, l.serial, true);
    AnswerViews(l.serial, AddSucceeds(t, c, l.serial, canOpen));
    if !(l.live && IsOpenRequest(p)) {
      if answer.Some? {
        if l.live { PushDownAnswer(l', answer.value, ok, granted); }
      }
      UpTail(l, At(t.devmap, c));
      assert l'.up != [] ==> !IsOpenRequest(l'.up[0]);
      if AnswerComing(l', granted) { assert AnswerComing(l, granted); }
    }
  }

  lemma ClientMayAnswer(l: Link, registered: bool, granted: bool)
    requires l.down != [] && MayAnswer(AfterClient(l, registered), granted)
    ensures MayAnswer(l, granted)
  {
    var l' := AfterClient(l, registered);
    if i :| 0 <= i < |l'.down| && ClientView(l'.down[i]) == OpenAnswer(l.serial, granted) {
      assert l'.down[i] == l.down[i + 1];
    }
  }

  lemma PhaseMayAnswer(l: Link, l': Link, granted: bool)
    requires l'.down == l.down && l'.serial == l.serial && l'.up == l.up && (l'.live ==> l.live)
    requires l'.phase != Preparing && (l'.phase == Connected ==> l.phase == Connected)
    requires MayAnswer(l', granted)
    ensures MayAnswer(l, granted)
  {
    if AnswerComing(l', granted) { assert AnswerComing(l, granted); }
  }

  lemma ClientSideMayAnswer(s: State, a: Step, l: Link, l': Link, granted: bool)
    requires Enabled(s, a) && !a.OpenReset? && !ServerSide(a) && l == s.links[a.c]
    requires a.c in Next(s, a).links && l' == Next(s, a).links[a.c] && MayAnswer(l', granted)
    ensures MayAnswer(l, granted)
  {
    match a
    case OpenConnect(_, _) =>
    case OpenSend(_, _) =>
      if AnswerComing(l', granted) { assert AnswerComing(l, granted); }
    case Write(_, payload, ok) =>
      RawDataViews(l.serial, payload);
      if ok && l.live {
        var w := PushUp(l, RawData(l.serial, payload), ok);
        if AnswerComing(l', granted) { assert AnswerComing(w, granted); }
        PushUpAnswer(l, RawData(l.serial, payload), ok, granted);
      }
    case CloseSend(c, ok) =>
      var serial := s.client.devices[c].serial;
      RequestViews(serial);
      PushUpAnswer(l, CloseReq(serial), ok, granted);
    case ClientDeliver(c) => ClientMayAnswer(l, c in s.client.devices, granted);
    case Cut(_) => if AnswerComing(l', granted) { assert AnswerComing(l, granted); }
    case Read(_, _) => if AnswerComing(l', granted) { assert AnswerComing(l, granted); }
    case OpenFinish(_) => PhaseMayAnswer(l, l', granted);
    case CloseErase(_) =>
  }

  lemma ServerSideMayAnswer(s: State, a: Step, l: Link, l': Link, granted: bool)
    requires Enabled(s, a) && !a.OpenReset? && ServerSide(a) && l == s.links[a.c] && UpOk(l, At(s.server.devmap, a.c))
    requires a.c in Next(s, a).links && l' == Next(s, a).links[a.c] && MayAnswer(l', granted)
    ensures MayAnswer(l, granted)
  {
    match a
    case ServerDeliver(c, canOpen, ok) => ServerMayAnswer(s.server, l, c, canOpen, ok, granted);
    case BufToDev(c, ser, n, ok) =>
      AnswerViews(ser, false);
      var w := l.(written := l.written + Server.Written(s.server.devmap[c][ser], n));
      if l' != w { PushDownAnswer(w, ErrorNote(ser), ok, granted); }
      if AnswerComing(w, granted) { assert AnswerComing(l, granted); }
    case DevToNet(_, ser, chunk, ok) =>
      RawDataViews(ser, chunk);
      var w := Produced(l, chunk, ok);
      PushDownAnswer(w, RawData(ser, chunk), ok, granted);
      if AnswerComing(w, granted) { assert AnswerComing(l, granted); }
    case Disconnected(_) => if AnswerComing(l', granted) { assert AnswerComing(l, granted); }
  }

  /** Only a new bindy_open starts the wait for an answer. */
  lemma MayAnswerShrinks(s: State, a: Step, c: ConnId, granted: bool)
    requires Inv(s) && Enabled(s, a) && c in s.links && c in Next(s, a).links && MayAnswer(Next(s, a).links[c], granted)
    ensures MayAnswer(s.links[c], granted)
  {
    assert LinkInv(s, c);
    if c != a.c {
      Isolation(s, a, c);
      assert At(Next(s, a).links, c) == At(s.links, c);
    } else if ServerSide(a) {
      ServerSideMayAnswer(s, a, s.links[c], Next(s, a).links[c], granted);
    } else {
      ClientSideMayAnswer(s, a, s.links[c], Next(s, a).links[c], granted);
    }
  }

  predicate Restarts(a: Step, serial: Serial) { a.OpenReset? && a.serial == serial }

  /** bindy_open on connection `d` is under way. */
  predicate InCall(s: State, d: ConnId) { d in s.links && Opening(s.links[d].phase) }

  /** No other bindy_open of the serial begins while the one on `d` is under way; afterwards anything may. */
  ghost predicate NoRival(s: State, steps: seq<Step>, d: ConnId, serial: Serial)
    requires Runs(s, steps)
    decreases |steps|
  {
    steps == [] || !InCall(s, d)
    || (!Restarts(steps[0], serial) && NoRival(Next(s, steps[0]), steps[1..], d, serial))
  }

  /** A connection other than `d` that may still be answered positively for the serial. */
  ghost predicate RivalMayAnswer(s: State, d: ConnId, serial: Serial) {
    exists c :: c in s.links && c != d && s.links[c].serial == serial && MayAnswer(s.links[c], true)
  }

  /** The open on `d` can only be told about its own device: it has it, or nobody else's answer is there or can come. */
  ghost predicate Safe(s: State, d: ConnId, serial: Serial) {
    && d in s.links && s.links[d].serial == serial
    && (s.links[d].granted || (!Client.AnsweredOk(s.client, serial) && !RivalMayAnswer(s, d, serial)))
  }

  /** A successful bindy_open on `d` without a device behind it. */
  predicate Misled(s: State, d: ConnId) { d in s.links && s.links[d].phase == Open && !s.links[d].granted }

  lemma NoNewRival(s: State, a: Step, d: ConnId, serial: Serial)
    requires Inv(s) && Enabled(s, a) && d in s.links && !RivalMayAnswer(s, d, serial) && !Restarts(a, serial)
    ensures !RivalMayAnswer(Next(s, a), d, serial)
  {
    var s' := Next(s, a);
    forall c | c in s'.links && c != d && s'.links[c].serial == serial ensures !MayAnswer(s'.links[c], true) {
      if c in s.links {
        LinkGrows(s, a, c);
        if MayAnswer(s'.links[c], true) { MayAnswerShrinks(s, a, c, true); }
      }
    }
  }

  /** The flag goes up only for a device granted to `d` itself, or by a rival's answer. */
  lemma WhoseFlag(s: State, a: Step, d: ConnId, serial: Serial)
    requires Inv(s) && d in s.links && Enabled(s, a)
    requires !Client.AnsweredOk(s.client, serial) && Client.AnsweredOk(Next(s, a).client, serial)
    ensures s.links[d].granted || RivalMayAnswer(s, d, serial)
  {
    FlagRaised(s, a, serial);
    AnswerInFront(s, a.c, serial);
  }

  lemma AnswerInFront(s: State, c: ConnId, serial: Serial)
    requires Inv(s) && c in s.links && s.links[c].down != []
    requires ClientView(s.links[c].down[0]) == OpenAnswer(serial, true)
    ensures s.links[c].serial == serial && s.links[c].granted && MayAnswer(s.links[c], true)
  {
    PositiveAnswerBacked(s, c, 0, serial);
    assert AnswerComing(s.links[c], true);
  }

  /** The phase of an open moves only by its own steps, and reaches Open only on the flag. */
  lemma PhaseStep(s: State, a: Step, d: ConnId)
    requires Enabled(s, a) && d in s.links
    ensures d in Next(s, a).links
    ensures Opening(Next(s, a).links[d].phase) ==> Opening(s.links[d].phase)
    ensures Next(s, a).links[d].phase == Open && s.links[d].phase != Open
            ==> Opening(s.links[d].phase) && Client.AnsweredOk(s.client, s.links[d].serial)
  {
    LinkGrows(s, a, d);
    if d != a.c { Isolation(s, a, d); assert At(Next(s, a).links, d) == At(s.links, d); }
  }

  lemma SafeStep(s: State, a: Step, d: ConnId, serial: Serial)
    requires Inv(s) && Safe(s, d, serial) && Enabled(s, a) && !Restarts(a, serial)
    ensures Safe(Next(s, a), d, serial)
    ensures !Misled(s, d) ==> !Misled(Next(s, a), d)
  {
    LinkGrows(s, a, d);
    PhaseStep(s, a, d);
    if !s.links[d].granted {
      NoNewRival(s, a, d, serial);
      if Client.AnsweredOk(Next(s, a).client, serial) { WhoseFlag(s, a, d, serial); }
    }
  }

  /** Once the call is over its outcome stands, whatever else is opened. */
  lemma {:induction false} OverRun(s: State, steps: seq<Step>, d: ConnId)
    requires Runs(s, steps) && d in s.links && !InCall(s, d) && !Misled(s, d)
    ensures !Misled(Exec(s, steps), d)
    decreases |steps|
  {
    if steps != [] {
      LinkGrows(s, steps[0], d);
      PhaseStep(s, steps[0], d);
      OverRun(Next(s, steps[0]), steps[1..], d);
    }
  }

  /** A safe open is not misled in any run in which no rival open begins before it returns. */
  lemma {:induction false} SafeRun(s: State, steps: seq<Step>, d: ConnId, serial: Serial)
    requires Inv(s) && Safe(s, d, serial) && !Misled(s, d) && Runs(s, steps) && NoRival(s, steps, d, serial)
    ensures !Misled(Exec(s, steps), d)
    decreases |steps|
  {
    if steps == [] {
    } else if !InCall(s, d) {
      OverRun(s, steps, d);
    } else {
      InvStep(s, steps[0]);
      SafeStep(s, steps[0], d, serial);
      SafeRun(Next(s, steps[0]), steps[1..], d, serial);
    }
  }

  // ---------------------------------------------------------------- misleading an open

  /** Some run from `s` to `s'` in which no bindy_open of the serial begins. */
  ghost predicate LeadsTo(s: State, s': State, serial: Serial) {
    exists steps :: Runs(s, steps) && Exec(s, steps) == s' && forall a <- steps :: !Restarts(a, serial)
  }

  lemma NoStep(s: State, serial: Serial)
    ensures LeadsTo(s, s, serial)
  {
    assert Runs(s, []) && Exec(s, []) == s;
  }

  lemma {:induction false} QuietRun(s: State, steps: seq<Step>, d: ConnId, serial: Serial)
    requires Runs(s, steps) && forall a <- steps :: !Restarts(a, serial)
    ensures NoRival(s, steps, d, serial)
    decreases |steps|
  {
    if steps != [] { QuietRun(Next(s, steps[0]), steps[1..], d, serial); }
  }

  lemma {:induction false} RunsAppend(s: State, steps: seq<Step>, a: Step)
    requires Runs(s, steps) && Enabled(Exec(s, steps), a)
    ensures Runs(s, steps + [a]) && Exec(s, steps + [a]) == Next(Exec(s, steps), a)
    decreases |steps|
  {
    if steps == [] {
      assert (steps + [a])[1..] == [];
    } else {
      RunsAppend(Next(s, steps[0]), steps[1..], a);
      assert (steps + [a])[1..] == steps[1..] + [a];
    }
  }

  lemma ReachNext(s: State, a: Step)
    requires Reachable(s) && Enabled(s, a)
    ensures Reachable(Next(s, a))
  {
    var s0 := Init();
    var steps :| Runs(s0, steps) && Exec(s0, steps) == s;
    RunsAppend(s0, steps, a);
  }

  lemma Onwards(s: State, s1: State, serial: Serial, a: Step)
    requires LeadsTo(s, s1, serial) && Enabled(s1, a) && !Restarts(a, serial)
    ensures LeadsTo(s, Next(s1, a), serial)
  {
    var steps :| Runs(s, steps) && Exec(s, steps) == s1 && forall a <- steps :: !Restarts(a, serial);
    RunsAppend(s, steps, a);
  }

  /** From `s` on the open on `d` can be misled without a further rival. */
  ghost predicate CanBeMisled(s: State, d: ConnId, serial: Serial) {
    exists steps :: Runs(s, steps) && NoRival(s, steps, d, serial) && Misled(Exec(s, steps), d)
  }

  /** The open on `d` is under way and has been granted nothing. */
  predicate Empty(s: State, d: ConnId, serial: Serial) {
    InCall(s, d) && s.links[d].serial == serial && !s.links[d].granted
  }

  lemma SameEmpty(s: State, s': State, d: ConnId, serial: Serial)
    requires Empty(s, d, serial) && At(s'.links, d) == At(s.links, d)
    ensures Empty(s', d, serial)
  {
  }

  lemma ServerAnswers(s0: State, s: State, c: ConnId, d: ConnId, serial: Serial) returns (s': State)
    requires LeadsTo(s0, s, serial) && Inv(s) && Empty(s, d, serial) && c in s.links && c != d
    requires var l := s.links[c]; l.serial == serial && l.live && l.up != [] && IsOpenRequest(l.up[0])
    requires serial !in s.server.locks
    ensures LeadsTo(s0, s', serial) && Empty(s', d, serial) && c in s'.links
    ensures s'.links[c].serial == serial && AnswerComing(s'.links[c], true)
  {
    assert LinkInv(s, c);
    assert UpShape(s.links[c].up[0], serial, true);
    OpenFindsNothing(s, c);
    var a := ServerDeliver(c, true, true);
    AnswerEffect(s, c, d, serial);
    Onwards(s0, s, serial, a);
    s' := Next(s, a);
  }

  lemma AnswerEffect(s: State, c: ConnId, d: ConnId, serial: Serial)
    requires Enabled(s, ServerDeliver(c, true, true)) && c != d
    requires var l := s.links[c]; l.serial == serial && l.live && ServerView(l.up[0]) == OpenRequest(serial)
    requires serial !in s.server.locks && !Has(s.server, c, serial)
    ensures var s' := Next(s, ServerDeliver(c, true, true));
            && At(s'.links, d) == At(s.links, d)
            && c in s'.links && s'.links[c].serial == serial && AnswerComing(s'.links[c], true)
  {
    var l, s' := s.links[c], Next(s, ServerDeliver(c, true, true));
    var l' := s'.links[c];
    AnswerViews(serial, true);
    assert l'.down == l.down + [OpenAns(serial, true)];
    assert ClientView(l'.down[|l.down|]) == OpenAnswer(l'.serial, true);
  }

  /** The holder of a serial's lock is another connection. */
  lemma HolderIsOther(s: State, c: ConnId, d: ConnId, serial: Serial, e: ConnId)
    requires Inv(s) && Empty(s, d, serial) && c in s.links && Has(s.server, e, serial)
    requires var l := s.links[c]; l.serial == serial && l.up != [] && IsOpenRequest(l.up[0])
    ensures e != c && e != d && e in s.links
  {
    assert LinkInv(s, c) && LinkInv(s, d);
    assert UpShape(s.links[c].up[0], serial, true);
    OpenFindsNothing(s, c);
  }

  /** Whoever holds the lock of the serial can go away. */
  lemma FreeLock(s0: State, s: State, c: ConnId, d: ConnId, serial: Serial) returns (s': State)
    requires LeadsTo(s0, s, serial) && Inv(s) && Empty(s, d, serial) && c in s.links && c != d
    requires var l := s.links[c]; l.serial == serial && l.live && l.up != [] && IsOpenRequest(l.up[0])
    ensures LeadsTo(s0, s', serial) && Inv(s') && Empty(s', d, serial)
    ensures c in s'.links && s'.links[c] == s.links[c] && serial !in s'.server.locks
  {
    s' := s;
    if serial in s.server.locks {
      var e := Holder(s.server, serial);
      HolderIsOther(s, c, d, serial, e);
      s' := Release(s0, s, e, serial);
      SameEmpty(s, s', d, serial);
      assert At(s'.links, c) == At(s.links, c);
    }
  }

  lemma Holder(t: Table<Server.ServerDevice>, serial: Serial) returns (e: ConnId)
    requires Exclusive(t) && serial in t.locks
    ensures Has(t, e, serial)
  {
    e :| Has(t, e, serial);
  }

  lemma Release(s0: State, s: State, e: ConnId, serial: Serial) returns (s': State)
    requires LeadsTo(s0, s, serial) && Inv(s) && e in s.links && Has(s.server, e, serial)
    ensures LeadsTo(s0, s', serial) && Inv(s') && serial !in s'.server.locks
    ensures forall c :: c != e ==> At(s'.links, c) == At(s.links, c)
  {
    var s1 := CutOff(s0, s, e, serial);
    s' := Noticed(s0, s1, e, serial);
    assert forall c :: c != e ==> At(s'.links, c) == At(s1.links, c) == At(s.links, c);
  }

  lemma CutOff(s0: State, s: State, e: ConnId, serial: Serial) returns (s': State)
    requires LeadsTo(s0, s, serial) && Inv(s) && e in s.links
    ensures LeadsTo(s0, s', serial) && Inv(s') && e in s'.links && !s'.links[e].live && s'.server == s.server
    ensures forall c :: c != e ==> At(s'.links, c) == At(s.links, c)
  {
    Onwards(s0, s, serial, Cut(e));
    InvStep(s, Cut(e));
    s' := Next(s, Cut(e));
  }

  lemma Noticed(s0: State, s: State, e: ConnId, serial: Serial) returns (s': State)
    requires LeadsTo(s0, s, serial) && Inv(s) && e in s.links && !s.links[e].live && Has(s.server, e, serial)
    ensures LeadsTo(s0, s', serial) && Inv(s') && serial !in s'.server.locks
    ensures forall c :: c != e ==> At(s'.links, c) == At(s.links, c)
  {
    var a := Disconnected(e);
    assert Enabled(s, a) by { assert !s.server.mutexHeld; }
    NoticedEffect(s, e, serial);
    Onwards(s0, s, serial, a);
    InvStep(s, a);
    s' := Next(s, a);
  }

  lemma NoticedEffect(s: State, e: ConnId, serial: Serial)
    requires Enabled(s, Disconnected(e)) && Has(s.server, e, serial)
    ensures serial !in Next(s, Disconnected(e)).server.locks
    ensures forall c :: c != e ==> At(Next(s, Disconnected(e)).links, c) == At(s.links, c)
  {
  }

  /** From any of the situations of MayAnswer, a positive answer can be brought on its way. */
  lemma BringAnswer(s0: State, s: State, c: ConnId, d: ConnId, serial: Serial) returns (s': State)
    requires LeadsTo(s0, s, serial) && Inv(s) && Empty(s, d, serial) && c in s.links && c != d
    requires s.links[c].serial == serial && MayAnswer(s.links[c], true)
    ensures LeadsTo(s0, s', serial) && Empty(s', d, serial) && c in s'.links
    ensures s'.links[c].serial == serial && AnswerComing(s'.links[c], true)
    decreases if s.links[c].phase == Preparing then 2 else if s.links[c].phase == Connected then 1 else 0
  {
    var l := s.links[c];
    if AnswerComing(l, true) {
      s' := s;
    } else if l.phase == Preparing {
      Onwards(s0, s, serial, OpenConnect(c, true));
      InvStep(s, OpenConnect(c, true));
      s' := BringAnswer(s0, Next(s, OpenConnect(c, true)), c, d, serial);
    } else if l.phase == Connected {
      assert LinkInv(s, c);
      Onwards(s0, s, serial, OpenSend(c, true));
      InvStep(s, OpenSend(c, true));
      var s1 := Next(s, OpenSend(c, true));
      SendsRequest(s, c);
      s' := BringAnswer(s0, s1, c, d, serial);
    } else {
      var s1 := FreeLock(s0, s, c, d, serial);
      s' := ServerAnswers(s0, s1, c, d, serial);
    }
  }

  lemma SendsRequest(s: State, c: ConnId)
    requires Enabled(s, OpenSend(c, true)) && s.links[c].live && s.links[c].up == []
    ensures MayAnswer(Next(s, OpenSend(c, true)).links[c], true)
  {
    var l := s.links[c];
    RequestViews(l.serial);
    assert Next(s, OpenSend(c, true)).links[c].up == [] + [OpenReq(l.serial)];
  }

  /** Delivering everything up to that answer raises the flag that `d` looks at. */
  lemma DeliverUpTo(s0: State, s: State, c: ConnId, d: ConnId, serial: Serial, i: nat) returns (s': State)
    requires LeadsTo(s0, s, serial) && Empty(s, d, serial) && c in s.links && c != d
    requires i < |s.links[c].down| && ClientView(s.links[c].down[i]) == OpenAnswer(serial, true)
    ensures LeadsTo(s0, s', serial) && Empty(s', d, serial) && Client.AnsweredOk(s'.client, serial)
    decreases i
  {
    var a := ClientDeliver(c);
    Onwards(s0, s, serial, a);
    var s1 := Next(s, a);
    if i == 0 {
      s' := s1;
    } else {
      assert s1.links[c].down == s.links[c].down[1..];
      assert s1.links[c].down[i - 1] == s.links[c].down[i];
      s' := DeliverUpTo(s0, s1, c, d, serial, i - 1);
    }
  }

  /** With the flag up, the call goes through its remaining sections and succeeds. */
  lemma FinishMisled(s0: State, s: State, d: ConnId, serial: Serial) returns (s': State)
    requires LeadsTo(s0, s, serial) && Client.AnsweredOk(s.client, serial) && Empty(s, d, serial)
    ensures LeadsTo(s0, s', serial) && Misled(s', d)
    decreases if s.links[d].phase == Preparing then 2 else if s.links[d].phase == Connected then 1 else 0
  {
    if s.links[d].phase == Preparing {
      Onwards(s0, s, serial, OpenConnect(d, true));
      s' := FinishMisled(s0, Next(s, OpenConnect(d, true)), d, serial);
    } else if s.links[d].phase == Connected {
      Onwards(s0, s, serial, OpenSend(d, false));
      s' := FinishMisled(s0, Next(s, OpenSend(d, false)), d, serial);
    } else {
      Onwards(s0, s, serial, OpenFinish(d));
      s' := Next(s, OpenFinish(d));
    }
  }

  lemma MisledBy(s0: State, c: ConnId, d: ConnId, serial: Serial) returns (s': State)
    requires Inv(s0) && Empty(s0, d, serial) && c in s0.links && c != d
    requires s0.links[c].serial == serial && MayAnswer(s0.links[c], true)
    ensures LeadsTo(s0, s', serial) && Misled(s', d)
  {
    NoStep(s0, serial);
    var s1 := BringAnswer(s0, s0, c, d, serial);
    var i :| 0 <= i < |s1.links[c].down| && ClientView(s1.links[c].down[i]) == OpenAnswer(s1.links[c].serial, true);
    var s2 := DeliverUpTo(s0, s1, c, d, serial, i);
    s' := FinishMisled(s0, s2, d, serial);
  }

  lemma Misleads(s: State, s': State, d: ConnId, serial: Serial)
    requires LeadsTo(s, s', serial) && Misled(s', d)
    ensures CanBeMisled(s, d, serial)
  {
    var steps :| Runs(s, steps) && Exec(s, steps) == s' && forall a <- steps :: !Restarts(a, serial);
    QuietRun(s, steps, d, serial);
  }

  lemma UnsafeMisleads(s: State, d: ConnId, serial: Serial)
    requires Inv(s) && Empty(s, d, serial) && !Safe(s, d, serial)
    ensures CanBeMisled(s, d, serial)
  {
    if Client.AnsweredOk(s.client, serial) {
      NoStep(s, serial);
      var s' := FinishMisled(s, s, d, serial);
      Misleads(s, s', d, serial);
    } else {
      var c :| c in s.links && c != d && s.links[c].serial == serial && MayAnswer(s.links[c], true);
      var s' := MisledBy(s, c, d, serial);
      Misleads(s, s', d, serial);
    }
  }

  /**
   Exactly when an open can be misled, at any moment of the call: iff it has not been granted its device, and
   the flag is up or another connection of the serial may still be answered positively.
   */
  lemma MisledIff(s: State, d: ConnId, serial: Serial)
    requires Reachable(s) && InCall(s, d) && s.links[d].serial == serial
    ensures CanBeMisled(s, d, serial) <==>
              !s.links[d].granted && (Client.AnsweredOk(s.client, serial) || RivalMayAnswer(s, d, serial))
  {
    InvReachable(s);
    if Safe(s, d, serial) {
      forall steps | Runs(s, steps) && NoRival(s, steps, d, serial) ensures !Misled(Exec(s, steps), d) {
        SafeRun(s, steps, d, serial);
      }
    } else {
      UnsafeMisleads(s, d, serial);
    }
  }

  /** At the reset: iff some connection of the serial may still be answered at that moment. */
  lemma MisledFromReset(s: State, d: ConnId, serial: Serial)
    requires Reachable(s) && d !in s.links
    ensures CanBeMisled(Next(s, OpenReset(d, serial)), d, serial) <==> Unsettled(s, serial)
  {
    var s0 := Next(s, OpenReset(d, serial));
    ReachNext(s, OpenReset(d, serial));
    MisledIff(s0, d, serial);
    if c :| c in s.links && s.links[c].serial == serial && MayAnswer(s.links[c], true) {
      assert s0.links[c] == s.links[c];
    }
    if c :| c in s0.links && c != d && s0.links[c].serial == serial && MayAnswer(s0.links[c], true) {
      assert s0.links[c] == s.links[c];
    }
  }

  /** Once a rival opens the serial during the call, the earlier open can be misled iff it was granted nothing. */
  lemma RivalMisleads(s: State, d: ConnId, e: ConnId, serial: Serial)
    requires Reachable(s) && InCall(s, d) && s.links[d].serial == serial && e !in s.links
    ensures CanBeMisled(Next(s, OpenReset(e, serial)), d, serial) <==> !s.links[d].granted
  {
    var a := OpenReset(e, serial);
    ReachNext(s, a);
    Isolation(s, a, d);
    assert At(Next(s, a).links, d) == At(s.links, d);
    MisledIff(Next(s, a), d, serial);
    assert MayAnswer(Next(s, a).links[e], true);
  }

  /** In particular, of two overlapping opens of a serial the earlier one can always be misled by the later. */
  lemma TwoOpens(s: State, d: ConnId, e: ConnId, serial: Serial)
    requires Reachable(s) && d !in s.links && e !in s.links && d != e
    ensures CanBeMisled(Next(Next(s, OpenReset(d, serial)), OpenReset(e, serial)), d, serial)
  {
    ReachNext(s, OpenReset(d, serial));
    RivalMisleads(Next(s, OpenReset(d, serial)), d, e, serial);
  }

  /** Some run of the call, with whatever rivals, has it succeed in vain. */
  ghost predicate EverMisled(s: State, d: ConnId) {
    exists steps :: Runs(s, steps) && Misled(Exec(s, steps), d)
  }

  /**
   All runs of a call: in each one that misleads it, an answer was unsettled at its reset or a rival opens the
   serial before it is over; and there is such a run iff one of these is possible.
   */
  lemma MisledRuns(s: State, d: ConnId, serial: Serial)
    requires Reachable(s) && d !in s.links
    ensures var s0 := Next(s, OpenReset(d, serial));
            forall steps :: Runs(s0, steps) && Misled(Exec(s0, steps), d) ==>
              Unsettled(s, serial) || !NoRival(s0, steps, d, serial)
    ensures var s0 := Next(s, OpenReset(d, serial));
            EverMisled(s0, d) <==> Unsettled(s, serial) || exists e: ConnId :: e !in s0.links
  {
    var s0 := Next(s, OpenReset(d, serial));
    ReachNext(s, OpenReset(d, serial));
    MisledFromReset(s, d, serial);
    if e: ConnId :| e !in s0.links { RivalRun(s0, d, e, serial); }
    if EverMisled(s0, d) && !Unsettled(s, serial) {
      var steps :| Runs(s0, steps) && Misled(Exec(s0, steps), d);
      RivalUnused(s0, steps, d, serial);
    }
  }

  lemma RivalRun(s: State, d: ConnId, e: ConnId, serial: Serial)
    requires Reachable(s) && Empty(s, d, serial) && e !in s.links
    ensures EverMisled(s, d)
  {
    var a := OpenReset(e, serial);
    RivalMisleads(s, d, e, serial);
    var rest :| Runs(Next(s, a), rest) && Misled(Exec(Next(s, a), rest), d);
    var steps := [a] + rest;
    assert steps[0] == a && steps[1..] == rest;
    assert Runs(s, steps) && Exec(s, steps) == Exec(Next(s, a), rest);
    assert Misled(Exec(s, steps), d);
  }

  /** A rival needs a connection id that was not in use before. */
  lemma {:induction false} RivalUnused(s: State, steps: seq<Step>, d: ConnId, serial: Serial)
    requires Runs(s, steps) && !NoRival(s, steps, d, serial)
    ensures exists e: ConnId :: e !in s.links
    decreases |steps|
  {
    if Restarts(steps[0], serial) {
      assert steps[0].c !in s.links;
    } else {
      var s' := Next(s, steps[0]);
      RivalUnused(s', steps[1..], d, serial);
      var e: ConnId :| e !in s'.links;
      if e in s.links { LinkGrows(s, steps[0], e); }
    }
  }

  /** Both sides of MisledFromReset occur: nothing is unsettled at first, and one bindy_open under way makes it so. */
  lemma UnsettledOccurs(c: ConnId, serial: Serial)
    ensures Reachable(Init()) && !Unsettled(Init(), serial)
    ensures exists s :: Reachable(s) && Unsettled(s, serial) && s.links.Keys == {c}
  {
    assert Runs(Init(), []) && Exec(Init(), []) == Init();
    var a := OpenReset(c, serial);
    ReachNext(Init(), a);
    var s := Next(Init(), a);
    assert MayAnswer(s.links[c], true);
    assert s.links.Keys == {c};
  }
}
