/**
 wrapper.cpp: the client library's global maps and the calls that change them, each atomic section as a
 method proved against a function on values. Locking is the subject of ClientLocks.
 */
module Client {
  import opened Options
  import opened Codec
  import opened DeviceTable
  import opened Enumerate
  import opened Backoff

  const RET_NODEVICE := -2
  const CONN_ID_INVALID: ConnId := 0

  /** A Device of the client: the bytes received and not yet read. */
  datatype ClientDevice = ClientDevice(serial: Serial, buffer: seq<Byte>)

  /** device_by_conn, open_ok and the stored packets of s_enum. */
  datatype Maps = Maps(devices: map<ConnId, ClientDevice>, openOk: map<Serial, bool>, enums: map<ConnId, Packet>)

  // ---------------------------------------------------------------- the sections as functions

  /** The first section of bindy_open. */
  function OpenReset(m: Maps, s: Serial): Maps { m.(openOk := m.openOk[s := false]) }

  predicate AnsweredOk(m: Maps, s: Serial) { s in m.openOk && m.openOk[s] }

  /** The last section of bindy_open: the flag is consumed, and a Device registered if it was up. */
  function OpenFinish(m: Maps, c: ConnId, s: Serial): Maps {
    var m' := m.(openOk := m.openOk - {s});
    if AnsweredOk(m, s) then m'.(devices := m.devices[c := ClientDevice(s, [])]) else m'
  }

  /** callback_data; RawData without a registered Device goes into a Device nobody will ever see. */
  function Callback(m: Maps, c: ConnId, data: Packet): Maps {
    match ClientView(data)
    case FromDevice(_, payload) =>
      if c in m.devices then
        var d := m.devices[c];
        m.(devices := m.devices[c := d.(buffer := d.buffer + payload)])
      else m
    case OpenAnswer(s, granted) => m.(openOk := m.openOk[s := granted])
    case EnumerateAnswer(packet) => m.(enums := m.enums[c := packet])
    case DeviceGone(_) => m.(devices := m.devices - {c})
    case _ => m
  }

  /** The bytes one bindy_read of `size` hands out. */
  function Readable(m: Maps, c: ConnId, size: nat): seq<Byte> {
    if c !in m.devices then []
    else var b := m.devices[c].buffer; if |b| < size then b else b[..size]
  }

  function AfterRead(m: Maps, c: ConnId, size: nat): Maps {
    if c !in m.devices then m
    else
      var d := m.devices[c];
      m.(devices := m.devices[c := d.(buffer := d.buffer[|Readable(m, c, size)|..])])
  }

  /** The last section of bindy_close. */
  function CloseErase(m: Maps, c: ConnId): Maps { m.(devices := m.devices - {c}) }

  /** Reading takes a prefix of the buffer, as long as asked for if there is as much, and leaves the rest. */
  lemma ReadSplits(m: Maps, c: ConnId, size: nat)
    requires c in m.devices
    ensures var out, b := Readable(m, c, size), m.devices[c].buffer;
            && AfterRead(m, c, size).devices[c].serial == m.devices[c].serial
            && out + AfterRead(m, c, size).devices[c].buffer == b
            && (|out| == size || (|out| < size && out == b))
    ensures forall c' :: c' != c ==> (c' in AfterRead(m, c, size).devices <==> c' in m.devices)
    ensures forall c' <- m.devices :: c' != c ==> AfterRead(m, c, size).devices[c'] == m.devices[c']
  {
  }

  /** The last section of bindy_enumerate_specify_adapter: the stored answer is consumed. */
  function EnumerateFinish(m: Maps, c: ConnId): Maps { m.(enums := m.enums - {c}) }

  /**
   An enumeration through both programs: once the server's answer has been delivered, the packet stored for
   the connection yields the descriptors the server listed; nothing else in the maps has changed.
   */
  lemma EnumerationDelivered(m: Maps, c: ConnId, descriptions: seq<seq<Bytes>>, packet: Packet)
    requires IsAnswerTo(packet, descriptions)
    ensures var m' := Callback(m, c, packet);
            && m' == m.(enums := m.enums[c := packet])
            && EnumerateFinish(m', c) == m.(enums := m.enums - {c})
    ensures |packet| >= ENUMERATE_HEAD
    ensures Carries(ReadWord(packet, 12), Some(packet[ENUMERATE_HEAD..]), descriptions)
  {
    EnumerateEndToEnd(descriptions, packet);
  }

  // ---------------------------------------------------------------- the object

  class Wrapper {
    var deviceByConn: map<ConnId, ClientDevice>
    var openOk: map<Serial, bool>
    var enums: map<ConnId, Packet>

    ghost function State(): Maps
      reads this
    {
      Maps(deviceByConn, openOk, enums)
    }

    method CallbackData(c: ConnId, data: Packet)
      modifies this
      ensures State() == Callback(old(State()), c, data)
      ensures forall c' :: c' != c ==> (c' in deviceByConn <==> c' in old(deviceByConn))
                                       && (c' in deviceByConn ==> deviceByConn[c'] == old(deviceByConn)[c'])
      ensures match ClientView(data)
              case FromDevice(_, payload) =>
                && (c in deviceByConn <==> c in old(deviceByConn))
                && (c in deviceByConn ==>
                      && deviceByConn[c].serial == old(deviceByConn)[c].serial
                      && deviceByConn[c].buffer == old(deviceByConn)[c].buffer + payload)
                && openOk == old(openOk) && enums == old(enums)
              case DeviceGone(_) => c !in deviceByConn && openOk == old(openOk) && enums == old(enums)
              case OpenAnswer(s, granted) =>
                deviceByConn == old(deviceByConn) && openOk == old(openOk)[s := granted] && enums == old(enums)
              case EnumerateAnswer(p) =>
                deviceByConn == old(deviceByConn) && openOk == old(openOk) && enums == old(enums)[c := p]
              case _ => deviceByConn == old(deviceByConn) && openOk == old(openOk) && enums == old(enums)
    {
      match ClientView(data)
      case FromDevice(serial, payload) =>
        var d := if c !in deviceByConn then ClientDevice(serial, []) else deviceByConn[c];
        d := d.(buffer := d.buffer + payload);
        if c in deviceByConn {
          deviceByConn := deviceByConn[c := d];
        }
      case OpenAnswer(serial, granted) =>
        openOk := openOk[serial := granted];
      case EnumerateAnswer(packet) =>
        enums := enums[c := packet];
      case DeviceGone(_) =>
        if c !in deviceByConn { return; }
        deviceByConn := deviceByConn - {c};
      case _ =>
    }

    /** bindy_open before connecting: the request is built, and the flag it will wait for is down. */
    method BeginOpen(serial: Serial) returns (request: Packet)
      modifies this
      ensures State() == OpenReset(old(State()), serial) && !AnsweredOk(State(), serial)
      ensures deviceByConn == old(deviceByConn) && openOk == old(openOk)[serial := false]
      ensures ServerView(request) == OpenRequest(serial)
    {
      request := EncodeOpenRequest(serial);
      openOk := openOk[serial := false];
    }

    /** bindy_open after polling: a connection id, or 0 if no positive answer is there. */
    method FinishOpen(c: ConnId, serial: Serial) returns (r: ConnId)
      modifies this
      ensures State() == OpenFinish(old(State()), c, serial)
      ensures r == if AnsweredOk(old(State()), serial) then c else CONN_ID_INVALID
      ensures serial !in openOk && forall s :: s != serial ==> (s in openOk <==> s in old(openOk))
      ensures if serial in old(openOk) && old(openOk)[serial]
              then deviceByConn == old(deviceByConn)[c := ClientDevice(serial, [])]
              else deviceByConn == old(deviceByConn)
    {
      if serial !in openOk { openOk := openOk[serial := false]; }   // operator[] inserts
      var ok := openOk[serial];
      openOk := openOk - {serial};
      if !ok { return CONN_ID_INVALID; }
      deviceByConn := deviceByConn[c := ClientDevice(serial, [])];
      r := c;
    }

    /**
     bindy_write: the packet is sent iff the first permitted attempt that is not refused gets through, 0 is
     returned iff that attempt breaks, and 1 otherwise; so the return value tells whether the packet was sent
     exactly when there is such an attempt.
     */
    method Write(c: ConnId, payload: Bytes, attempt: nat -> Attempt) returns (r: int, sent: Option<Packet>)
      ensures c !in deviceByConn ==> r == -2 && sent == None
      ensures c in deviceByConn ==>
                && (sent.Some? ==> ServerView(sent.value) == ToDevice(deviceByConn[c].serial, payload))
                && (sent.Some? <==> exists k: nat ::
                      FirstThatCounts(attempt, 5000, k) && attempt(k).Through?)
                && (r == 0 <==> exists k: nat ::
                      FirstThatCounts(attempt, 5000, k) && attempt(k).Broken?)
                && (r == 0 || r == 1)
                && (attempt(0).Through? ==> r == 1 && sent.Some?)
                && ((r == 1 <==> sent.Some?) <==> SomeAttemptCounts(attempt, 5000))
    {
      if c !in deviceByConn { return RET_NODEVICE, None; }
      var packet := EncodeRawData(deviceByConn[c].serial, payload);
      var _, _, o := AdaptiveWaitSend(attempt, SEND_WAIT_TIMEOUT_MS);
      WriteHonestIff(attempt, o);
      EndIff(attempt, SEND_WAIT_TIMEOUT_MS, o);
      assert MayTry(0, SEND_WAIT_TIMEOUT_MS);
      r := WriteReturn(o);
      sent := if o.end.Sent? then Some(packet) else None;
    }

    /** bindy_read: copies byte by byte into the caller's memory, then erases what it copied. */
    method Read(c: ConnId, buf: array<Byte>, size: nat) returns (r: int)
      requires size <= buf.Length
      modifies this, buf
      ensures State() == AfterRead(old(State()), c, size)
      ensures c !in old(deviceByConn) ==> r == RET_NODEVICE && buf[..] == old(buf[..])
      ensures c in old(deviceByConn) ==>
                var out := Readable(old(State()), c, size);
                r == |out| && buf[..] == out + old(buf[|out|..])
    {
      if c !in deviceByConn { return RET_NODEVICE; }
      var d := deviceByConn[c];
      var n := if |d.buffer| < size then |d.buffer| else size;
      if n > 0 {
        var i := 0;
        while i < n
          invariant 0 <= i <= n && deviceByConn == old(deviceByConn) && openOk == old(openOk) && enums == old(enums)
          invariant forall k :: 0 <= k < i ==> buf[k] == d.buffer[k]
          invariant forall k :: i <= k < buf.Length ==> buf[k] == old(buf[k])
        {
          buf[i] := d.buffer[i];
          i := i + 1;
        }
        assert buf[..] == buf[..n] + buf[n..];
        d := d.(buffer := d.buffer[n..]);
      }
      deviceByConn := deviceByConn[c := d];
      r := n;
    }

    /**
     bindy_enumerate_specify_adapter after polling. No answer in time means 0 devices and no buffer; else the
     stored packet is taken out of the map and cropped.
     */
    method FinishEnumerate(c: ConnId) returns (devices: UInt32, buf: Option<Bytes>)
      modifies this
      ensures State() == EnumerateFinish(old(State()), c)
      ensures c !in old(enums) ==> devices == 0 && buf == None
      ensures c in old(enums) ==>
                var p := old(enums[c]);
                if |p| < ENUMERATE_HEAD then devices == 0 && buf == None
                else devices == ReadWord(p, 12) && buf == Some(p[ENUMERATE_HEAD..]) && Delivers(p, devices, buf)
    {
      if c !in enums { return 0, None; }
      devices, buf := CropHead(enums[c]);
      enums := enums - {c};
    }

    /**
     bindy_close, if nothing else touches the connection meanwhile: one attempt to send the close request of the
     registered serial, and the device is gone whether or not it gets through.
     */
    method Close(c: ConnId, attempt: Attempt) returns (sent: Option<Packet>)
      modifies this
      ensures State() == CloseErase(old(State()), c)
      ensures c !in deviceByConn && forall c' :: c' != c ==> (c' in deviceByConn <==> c' in old(deviceByConn))
      ensures sent.Some? <==> c in old(deviceByConn) && attempt.Through?
      ensures sent.Some? ==> ServerView(sent.value) == CloseRequest(old(deviceByConn)[c].serial)
    {
      sent := None;
      if c !in deviceByConn { return; }
      var request := EncodeCloseRequest(deviceByConn[c].serial);
      if attempt.Through? { sent := Some(request); }
      deviceByConn := deviceByConn - {c};
    }
  }
}
