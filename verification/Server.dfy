/**
 linux-server.cpp: Device, Supermap and callback_data as objects, each method proved against the functions
 on values that the protocol model (Tunnel) runs on.
 */
module Server {
  import opened Options
  import opened Codec
  import opened DeviceTable
  import opened Enumerate

  // ---------------------------------------------------------------- values

  /** What matters of a Device from outside: net_to_dev_buffer and should_exit. */
  datatype ServerDevice = ServerDevice(buffer: seq<Byte>, shouldExit: bool)

  const READ_BUF_SIZE := 1024
  const NEW_DEVICE := ServerDevice([], false)

  /** One round of buf_to_dev_function, when write() answers `n` for a non-empty buffer: what reaches the device. */
  function Written(d: ServerDevice, n: int): seq<Byte> {
    if !d.shouldExit && 0 < n <= |d.buffer| then d.buffer[..n] else []
  }

  function AfterWrite(d: ServerDevice, n: int): ServerDevice {
    if d.shouldExit || |d.buffer| == 0 then d
    else if 0 < n <= |d.buffer| then d.(buffer := d.buffer[n..])
    else if n < 0 then d.(shouldExit := true)
    else d
  }

  /** How callback_data ends: normally, by an exception, by a failed assert, or with iterators past the end. */
  datatype End = Returned | Threw | Aborted | Undefined

  /** callback_data on one packet: the new table, the packet answered if any, and how it ends. */
  datatype Reaction = Reaction(table: Table<ServerDevice>, answer: Option<Packet>, end: End)

  function Callback(t: Table<ServerDevice>, c: ConnId, data: Packet, canOpen: bool): Reaction {
    match ServerView(data)
    case ToDevice(s, payload) =>
      (match FindDevice(t, c, s)
       case None => Reaction(t, None, Threw)
       case Some(d) => Reaction(Put(t, c, s, d.(buffer := d.buffer + payload)), None, Returned))
    case OpenRequest(s) =>
      Reaction(AddDevice(t, c, s, canOpen, NEW_DEVICE), Some(OpenAns(s, AddSucceeds(t, c, s, canOpen))), Returned)
    case CloseRequest(s) => Reaction(RemoveDevice(t, c, s), Some(CloseAns(s)), Returned)
    case ServerAborts => Reaction(t, None, Aborted)
    case ServerUndefined => Reaction(t, None, Undefined)
    case _ => Reaction(t, None, Returned)
  }

  // ---------------------------------------------------------------- Device

  class Device {
    const connId: ConnId
    const serial: Serial
    var shouldExit: bool
    var netToDevBuffer: seq<Byte>

    constructor (connId: ConnId, serial: Serial)
      ensures this.connId == connId && this.serial == serial && Value() == NEW_DEVICE
    {
      this.connId, this.serial := connId, serial;
      shouldExit, netToDevBuffer := false, [];
    }

    ghost function Value(): ServerDevice
      reads this
    {
      ServerDevice(netToDevBuffer, shouldExit)
    }

    /** The insertion of a RawData payload, under net_to_dev_mutex. */
    method Append(payload: seq<Byte>)
      modifies this
      ensures Value() == old(Value()).(buffer := old(Value()).buffer + payload)
    {
      netToDevBuffer := netToDevBuffer + payload;
    }

    /** One round of dev_to_net_function when read() answers `chunk` (empty for none or an error): the packet sent. */
    method DevToNetRound(chunk: seq<Byte>) returns (packet: Option<Packet>)
      requires |chunk| <= READ_BUF_SIZE
      ensures packet == if shouldExit || chunk == [] then None else Some(RawData(serial, chunk))
    {
      packet := None;
      if !shouldExit {
        if |chunk| > 0 {
          var p := EncodeRawData(serial, chunk);
          packet := Some(p);
        }
      }
    }

    /** One round of buf_to_dev_function; `n` is write()'s answer, -1 on error; `notify` is the error packet sent. */
    method BufToDevRound(n: int) returns (written: seq<Byte>, notify: Option<Packet>)
      requires -1 <= n <= |netToDevBuffer|
      modifies this
      ensures Value() == AfterWrite(old(Value()), n) && written == Written(old(Value()), n)
      ensures !old(shouldExit) && n >= 0 ==>
                && written == old(netToDevBuffer)[..n] && netToDevBuffer == old(netToDevBuffer)[n..]
                && !shouldExit && notify == None
      ensures !old(shouldExit) && n < 0 && old(netToDevBuffer) != [] ==>
                && shouldExit && written == [] && netToDevBuffer == old(netToDevBuffer)
                && notify.Some? && ClientView(notify.value) == DeviceGone(serial)
      ensures old(shouldExit) || old(netToDevBuffer) == [] ==>
                written == [] && Value() == old(Value()) && notify == None
      ensures notify.Some? ==> notify.value == ErrorNote(serial)
    {
      written, notify := [], None;
      if !shouldExit {
        if |netToDevBuffer| > 0 {
          if n > 0 {
            written := netToDevBuffer[..n];
            netToDevBuffer := netToDevBuffer[n..];
          } else if n == 0 {
          } else {
            shouldExit := true;
            var packet := EncodeErrorNotification(serial);
            notify := Some(packet);
          }
        }
      }
    }
  }

  /** The kernel's answers while a Device is constructed. */
  datatype Kernel = Kernel(openOk: bool, heldElsewhere: bool, flockOk: bool,
                           setflOk: bool, getattrOk: bool, setattrOk: bool)

  /** Nothing but a lock of our own stands in the way. */
  predicate CanOpen(k: Kernel) {
    k.openOk && !k.heldElsewhere && k.flockOk && k.setflOk && k.getattrOk && k.setattrOk
  }

  // ---------------------------------------------------------------- Supermap

  class Supermap {
    var conndevmap: map<ConnId, map<Serial, Device>>
    var locks: set<Serial>       // flocks held through the handles of our Devices
    var mapMutexHeld: bool       // a call returned with map_mutex locked; any later call would block for ever

    ghost predicate Valid()
      reads this
    {
      forall c, s :: Has(Table(), c, s) ==> conndevmap[c][s].connId == c && conndevmap[c][s].serial == s
    }

    ghost function Table(): Table<Device>
      reads this
    {
      DeviceTable.Table.Table(conndevmap, locks, mapMutexHeld)
    }

    ghost function Devices(): set<Device>
      reads this
    {
      set c, s | c in conndevmap && s in conndevmap[c] :: conndevmap[c][s]
    }

    /** `t` is the table with every Device replaced by its current value. */
    ghost predicate Shows(t: Table<ServerDevice>)
      reads *
    {
      && t.locks == locks && t.mutexHeld == mapMutexHeld
      && t.devmap.Keys == conndevmap.Keys
      && (forall c, s :: Has(t, c, s) <==> Has(Table(), c, s))
      && (forall c, s :: Has(Table(), c, s) ==> t.devmap[c][s] == conndevmap[c][s].Value())
    }

    constructor ()
      ensures Valid() && Table() == DeviceTable.Table.Table(map[], {}, false)
    {
      conndevmap, locks, mapMutexHeld := map[], {}, false;
    }

    method Find(c: ConnId, s: Serial) returns (d: Device?)
      requires !mapMutexHeld
      ensures d == if Has(Table(), c, s) then conndevmap[c][s] else null
    {
      d := null;
      if c in conndevmap {
        if s in conndevmap[c] {
          d := conndevmap[c][s];
        }
      }
    }

    /** Device::Device up to the threads: open, lock, configure; every failure closes the handle and so unlocks. */
    method OpenDevice(c: ConnId, s: Serial, k: Kernel) returns (d: Device?)
      modifies `locks
      ensures d != null <==> CanOpen(k) && s !in old(locks)
      ensures (!k.openOk || k.heldElsewhere || s in old(locks) || !k.flockOk || !k.setflOk || !k.getattrOk
               || !k.setattrOk) ==> d == null && locks == old(locks)
      ensures k == Kernel(true, false, true, true, true, true) && s !in old(locks)
              ==> d != null && locks == old(locks) + {s}
      ensures locks == if d != null then old(locks) + {s} else old(locks)
      ensures d != null ==> fresh(d) && d.connId == c && d.serial == s && d.Value() == NEW_DEVICE
    {
      if !k.openOk { return null; }
      if k.heldElsewhere || s in locks { return null; }   // EWOULDBLOCK
      locks := locks + {s};
      if !k.flockOk || !k.setflOk || !k.getattrOk || !k.setattrOk {
        locks := locks - {s};                               // close(handle)
        return null;
      }
      d := new Device(c, s);
    }

    /** addDevice. The early return for a device already present skips the unlock. */
    method Add(c: ConnId, s: Serial, k: Kernel) returns (present: bool)
      requires Valid() && !mapMutexHeld
      modifies this
      ensures Valid() && present == AddSucceeds(old(Table()), c, s, CanOpen(k))
      ensures present == Has(Table(), c, s)
      ensures Table() == if present then AddDevice(old(Table()), c, s, CanOpen(k), conndevmap[c][s]) else old(Table())
      ensures present && !Has(old(Table()), c, s) ==> fresh(conndevmap[c][s]) && conndevmap[c][s].Value() == NEW_DEVICE
    {
      if c in conndevmap {
        if s in conndevmap[c] {
          mapMutexHeld := true;
          return true;
        }
      }
      var d := OpenDevice(c, s, k);
      if d != null {
        var devices: map<Serial, Device> := if c in conndevmap then conndevmap[c] else map[];
        conndevmap := conndevmap[c := devices[s := d]];
      }
      present := d != null;
    }

    method Remove(c: ConnId, s: Serial)
      requires Valid() && !mapMutexHeld
      modifies this
      ensures Valid() && Table() == RemoveDevice(old(Table()), c, s)
    {
      if c in conndevmap {
        if s in conndevmap[c] {
          locks := locks - {s};                             // delete: ~Device closes the handle
          conndevmap := conndevmap[c := conndevmap[c] - {s}];
        }
      }
    }

    /** removeConnection, walking over every device of the connection. */
    method RemoveAll(c: ConnId)
      requires Valid() && !mapMutexHeld
      modifies this
      ensures Valid() && Table() == RemoveConnection(old(Table()), c)
    {
      if c in conndevmap {
        var serials := conndevmap[c].Keys;
        while serials != {}
          invariant c in conndevmap && serials == conndevmap[c].Keys <= old(conndevmap[c].Keys)
          invariant conndevmap - {c} == old(conndevmap - {c})
          invariant conndevmap[c] == old(conndevmap[c]) - (old(conndevmap[c].Keys) - serials)
          invariant locks == old(locks) - (old(conndevmap[c].Keys) - serials)
          invariant mapMutexHeld == old(mapMutexHeld)
          decreases serials
        {
          var s :| s in serials;
          locks := locks - {s};
          conndevmap := conndevmap[c := conndevmap[c] - {s}];
          serials := serials - {s};
        }
        conndevmap := conndevmap - {c};
      }
    }

    /**
     callback_data: whatever table of values the objects show, afterwards they show what Callback makes of it,
     and the packet answered is the same. An enumerate request is answered with the devices found.
     */
    method CallbackData(c: ConnId, data: Packet, k: Kernel, descriptions: seq<seq<Bytes>>, ghost t: Table<ServerDevice>)
      returns (answer: Option<Packet>, end: End)
      requires Valid() && !mapMutexHeld && Shows(t)
      requires forall d <- descriptions :: IsDescription(d)
      modifies this, Devices()
      ensures var r := Callback(t, c, data, CanOpen(k));
              Valid() && Shows(r.table) && end == r.end
              && (!ServerView(data).EnumerateRequest? ==> answer == r.answer)
      ensures match ServerView(data)
              case OpenRequest(s) => answer.Some? && ClientView(answer.value) == OpenAnswer(s, Has(Table(), c, s))
              case CloseRequest(s) => answer.Some? && ClientView(answer.value) == DeviceGone(s) && !Has(Table(), c, s)
              case EnumerateRequest => answer.Some?
              case _ => answer == None
      ensures ServerView(data).EnumerateRequest? ==> answer.Some? && IsAnswerTo(answer.value, descriptions)
    {
      answer, end := None, Returned;
      match ServerView(data)
      case ToDevice(s, payload) =>
        var d := Find(c, s);
        if d == null {
          end := Threw;
        } else {
          Deliver(d, c, s, payload, t);
        }
      case OpenRequest(s) =>
        var reply := AnswerOpen(c, s, k, t);
        answer := Some(reply);
      case CloseRequest(s) =>
        var reply := AnswerClose(c, s, t);
        answer := Some(reply);
      case EnumerateRequest =>
        var reply := EncodeEnumerateAnswer(descriptions);
        answer := Some(reply);
      case ServerAborts =>
        end := Aborted;
      case ServerUndefined =>
        end := Undefined;
      case _ =>
    }

    method AnswerOpen(c: ConnId, s: Serial, k: Kernel, ghost t: Table<ServerDevice>) returns (reply: Packet)
      requires Valid() && !mapMutexHeld && Shows(t)
      modifies this
      ensures Valid() && Shows(AddDevice(t, c, s, CanOpen(k), NEW_DEVICE))
      ensures reply == OpenAns(s, AddSucceeds(t, c, s, CanOpen(k)))
      ensures ClientView(reply) == OpenAnswer(s, Has(Table(), c, s))
    {
      var present := AddShown(c, s, k, t);
      reply := EncodeOpenAnswer(s, present);
    }

    /** The answer goes out first, then the device is removed. */
    method AnswerClose(c: ConnId, s: Serial, ghost t: Table<ServerDevice>) returns (reply: Packet)
      requires Valid() && !mapMutexHeld && Shows(t)
      modifies this
      ensures Valid() && Shows(RemoveDevice(t, c, s)) && !Has(Table(), c, s)
      ensures reply == CloseAns(s) && ClientView(reply) == DeviceGone(s)
    {
      reply := EncodeCloseAnswer(s);
      RemoveShown(c, s, t);
    }

    method Deliver(d: Device, c: ConnId, s: Serial, payload: seq<Byte>, ghost t: Table<ServerDevice>)
      requires Valid() && Has(Table(), c, s) && conndevmap[c][s] == d && Shows(t)
      modifies d
      ensures Valid() && Table() == old(Table())
      ensures Has(t, c, s) && Shows(Put(t, c, s, t.devmap[c][s].(buffer := t.devmap[c][s].buffer + payload)))
    {
      d.Append(payload);
      assert Has(t, c, s);
      HasPut(t, c, s, t.devmap[c][s].(buffer := t.devmap[c][s].buffer + payload));
    }

    method AddShown(c: ConnId, s: Serial, k: Kernel, ghost t: Table<ServerDevice>) returns (present: bool)
      requires Valid() && !mapMutexHeld && Shows(t)
      modifies this
      ensures Valid() && present == AddSucceeds(t, c, s, CanOpen(k))
      ensures present == Has(Table(), c, s)
      ensures Shows(AddDevice(t, c, s, CanOpen(k), NEW_DEVICE))
    {
      ghost var before := Table();
      assert Has(t, c, s) == Has(before, c, s);
      present := Add(c, s, k);
      if present && !Has(before, c, s) {
        ShowsNew(before, c, s, t);
      } else {
        assert forall c', s' :: Has(Table(), c', s') <==> Has(before, c', s');
        assert forall c', s' :: Has(t.(mutexHeld := true), c', s') <==> Has(t, c', s');
      }
    }

    /** A device that has just been put into the map shows as a new one. */
    lemma ShowsNew(before: Table<Device>, c: ConnId, s: Serial, t: Table<ServerDevice>)
      requires Has(Table(), c, s) && conndevmap[c][s].Value() == NEW_DEVICE
      requires Table() == Put(before, c, s, conndevmap[c][s]).(locks := before.locks + {s})
      requires t.locks == before.locks && t.mutexHeld == before.mutexHeld && t.devmap.Keys == before.devmap.Keys
      requires forall c', s' :: Has(t, c', s') <==> Has(before, c', s')
      requires forall c', s' :: Has(before, c', s') ==>
                 Has(t, c', s') && t.devmap[c'][s'] == before.devmap[c'][s'].Value()
      ensures Shows(Put(t, c, s, NEW_DEVICE).(locks := t.locks + {s}))
    {
      var t' := Put(t, c, s, NEW_DEVICE).(locks := t.locks + {s});
      HasPut(t, c, s, NEW_DEVICE);
      HasPut(before, c, s, conndevmap[c][s]);
      assert forall c', s' :: Has(t', c', s') <==> Has(Put(t, c, s, NEW_DEVICE), c', s');
      assert forall c', s' :: Has(Table(), c', s') <==> Has(Put(before, c, s, conndevmap[c][s]), c', s');
    }

    method RemoveShown(c: ConnId, s: Serial, ghost t: Table<ServerDevice>)
      requires Valid() && !mapMutexHeld && Shows(t)
      modifies this
      ensures Valid() && Shows(RemoveDevice(t, c, s)) && !Has(Table(), c, s)
    {
      HasRemove(t, c, s);
      HasRemove(Table(), c, s);
      Remove(c, s);
    }

    /** callback_disc. */
    method CallbackDisc(c: ConnId, ghost t: Table<ServerDevice>)
      requires Valid() && !mapMutexHeld && Shows(t)
      modifies this
      ensures Valid() && Shows(RemoveConnection(t, c))
    {
      HasDisconnect(t, c);
      HasDisconnect(Table(), c);
      assert c in conndevmap ==> forall s :: s in t.devmap[c] <==> Has(t, c, s);
      assert c in conndevmap ==> forall s :: s in conndevmap[c] <==> Has(Table(), c, s);
      assert c in conndevmap ==> t.devmap[c].Keys == conndevmap[c].Keys;
      RemoveAll(c);
    }
  }
}
