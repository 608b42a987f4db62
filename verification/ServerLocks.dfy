/**
 The server's locks: map_mutex, taken by the callbacks of any number of connections, and one net_to_dev_mutex
 per device, shared by the callback that appends to its buffer and the worker that writes from it. A callback
 that removes a device keeps map_mutex while it waits for both of its workers.

 The callbacks of one connection run one after another; those of different connections run freely.
 */
module ServerLocks {
  import opened Options

  type Conn = nat
  type Dev = nat

  datatype Worker = DevToNet | BufToDev

  datatype Call =
    | Append(d: Dev)          // RawData: findDevice, then the buffer
    | Add(d: Dev)             // open request
    | Remove(ds: seq<Dev>)    // close request, or all devices of a connection that went down

  /** Where the callback of a connection stands. */
  datatype Pc =
    | Idle
    | WantMap(call: Call)
    | HasMap(call: Call)
    | Starting(d: Dev)            // in Device::Device, holding both mutexes while the workers start
    | Started                     // net_to_dev_mutex released, map_mutex about to be
    | WantData(d: Dev)            // map_mutex released
    | HasData(d: Dev)
    | Removing(ds: seq<Dev>)      // holding map_mutex: these are still to be removed
    | JoinReader(ds: seq<Dev>)    // ... in ~Device of the first one
    | JoinWriter(ds: seq<Dev>)
    | Wedged                      // returned from addDevice with map_mutex locked

  datatype WorkerPc = AtGuard | Wanting | Inside | Over

  datatype Holder = Free | ByCallback | ByWorker

  /** A device handle: absent, or a Device with its owner, should_exit, net_to_dev_mutex and workers. */
  datatype Slot = Slot(
    present: bool, owner: Conn, exiting: bool, mutex: Holder, reader: WorkerPc, writer: WorkerPc)

  datatype State = State(conns: seq<Pc>, mapOwner: Option<Conn>, devs: seq<Slot>)

  datatype Step =
    | Begin(t: Conn, call: Call)
    | Move(t: Conn)
    | Guard(d: Dev, w: Worker)                     // while (!should_exit)
    | Enter(d: Dev)                                // the writer takes net_to_dev_mutex
    | Leave(d: Dev, w: Worker, writeError: bool)   // read or write, and possibly a send, are over

  predicate Present(s: State, d: Dev) { d < |s.devs| && s.devs[d].present }

  predicate Owns(s: State, t: Conn, d: Dev) { Present(s, d) && s.devs[d].owner == t }

  function At(s: State, d: Dev, w: Worker): WorkerPc
    requires Present(s, d)
  {
    if w.DevToNet? then s.devs[d].reader else s.devs[d].writer
  }

  predicate CallOk(s: State, call: Call) {
    match call case Append(d) => true case Add(d) => d < |s.devs| case Remove(_) => true
  }

  predicate Enabled(s: State, a: Step) {
    match a
    case Begin(t, call) => t < |s.conns| && s.conns[t].Idle? && CallOk(s, call)
    case Move(t) =>
      t < |s.conns| && (
        match s.conns[t]
        case Idle => false
        case Wedged => false
        case WantMap(_) => s.mapOwner.None?
        case WantData(d) => Present(s, d) && s.devs[d].mutex.Free?
        case JoinReader(ds) => ds != [] && Present(s, ds[0]) && s.devs[ds[0]].reader.Over?
        case JoinWriter(ds) => ds != [] && Present(s, ds[0]) && s.devs[ds[0]].writer.Over?
        case HasMap(call) => CallOk(s, call)
        case Starting(d) => Present(s, d)
        case HasData(d) => Present(s, d)
        case _ => true)
    case Guard(d, w) => Present(s, d) && At(s, d, w).AtGuard?
    case Enter(d) => Present(s, d) && s.devs[d].writer.Wanting? && s.devs[d].mutex.Free?
    case Leave(d, w, writeError) => Present(s, d) && At(s, d, w).Inside? && (writeError ==> w.BufToDev?)
  }

  function Put(s: State, t: Conn, pc: Pc): State
    requires t < |s.conns|
  {
    s.(conns := s.conns[t := pc])
  }

  function Set(s: State, d: Dev, slot: Slot): State
    requires d < |s.devs|
  {
    s.(devs := s.devs[d := slot])
  }

  function MoveHasMap(s: State, t: Conn, call: Call): State
    requires t < |s.conns| && CallOk(s, call)
  {
    match call
    case Append(d) => Put(s, t, if Owns(s, t, d) then WantData(d) else Idle).(mapOwner := None)
    case Add(d) =>
      if Owns(s, t, d) then Put(s, t, Wedged)
      else if s.devs[d].present then Put(s, t, Idle).(mapOwner := None)   // flock fails
      else Put(Set(s, d, Slot(true, t, false, ByCallback, AtGuard, AtGuard)), t, Starting(d))
    case Remove(ds) => Put(s, t, Removing(ds))
  }

  function MoveNext(s: State, t: Conn): State
    requires Enabled(s, Move(t))
  {
    match s.conns[t]
    case WantMap(call) => Put(s, t, HasMap(call)).(mapOwner := Some(t))
    case HasMap(call) => MoveHasMap(s, t, call)
    case Starting(d) => Put(Set(s, d, s.devs[d].(mutex := Free)), t, Started)
    case Started => Put(s, t, Idle).(mapOwner := None)
    case WantData(d) => Put(Set(s, d, s.devs[d].(mutex := ByCallback)), t, HasData(d))
    case HasData(d) => Put(Set(s, d, s.devs[d].(mutex := Free)), t, Idle)
    case Removing(ds) =>
      if ds == [] then Put(s, t, Idle).(mapOwner := None)
      else if Owns(s, t, ds[0]) then Put(Set(s, ds[0], s.devs[ds[0]].(exiting := true)), t, JoinReader(ds))
      else Put(s, t, Removing(ds[1..]))
    case JoinReader(ds) => Put(s, t, JoinWriter(ds))
    case JoinWriter(ds) => Put(Set(s, ds[0], s.devs[ds[0]].(present := false)), t, Removing(ds[1..]))
    case Idle => s
    case Wedged => s
  }

  function SetWorker(slot: Slot, w: Worker, pc: WorkerPc): Slot {
    if w.DevToNet? then slot.(reader := pc) else slot.(writer := pc)
  }

  function Next(s: State, a: Step): State
    requires Enabled(s, a)
  {
    match a
    case Begin(t, call) => Put(s, t, WantMap(call))
    case Move(t) => MoveNext(s, t)
    case Guard(d, w) =>
      var slot := s.devs[d];
      Set(s, d, SetWorker(slot, w, if slot.exiting then Over else if w.DevToNet? then Inside else Wanting))
    case Enter(d) => Set(s, d, s.devs[d].(writer := Inside, mutex := ByWorker))
    case Leave(d, w, writeError) =>
      var slot := SetWorker(s.devs[d], w, AtGuard);
      Set(s, d, slot.(exiting := slot.exiting || writeError, mutex := if w.BufToDev? then Free else slot.mutex))
  }

  ghost predicate Runs(s: State, steps: seq<Step>)
    decreases |steps|
  {
    steps == [] || (Enabled(s, steps[0]) && Runs(Next(s, steps[0]), steps[1..]))
  }

  ghost function Exec(s: State, steps: seq<Step>): State
    requires Runs(s, steps)
    decreases |steps|
  {
    if steps == [] then s else Exec(Next(s, steps[0]), steps[1..])
  }

  ghost predicate Init(s: State) {
    (forall t :: 0 <= t < |s.conns| ==> s.conns[t].Idle?) && s.mapOwner == None
    && forall d :: 0 <= d < |s.devs| ==> !s.devs[d].present
  }

  // ---------------------------------------------------------------- who holds what

  predicate HoldsMap(pc: Pc) {
    pc.HasMap? || pc.Starting? || pc.Started? || pc.Removing? || pc.JoinReader? || pc.JoinWriter? || pc.Wedged?
  }

  predicate HoldsData(pc: Pc, d: Dev) { (pc.Starting? || pc.HasData?) && pc.d == d }

  predicate Deletes(pc: Pc, d: Dev) { (pc.JoinReader? || pc.JoinWriter?) && pc.ds != [] && pc.ds[0] == d }

  /** A callback only works on devices of its own connection, which are there; one being deleted is told to exit. */
  predicate PcOk(s: State, t: Conn, pc: Pc) {
    match pc
    case WantMap(call) => CallOk(s, call)
    case HasMap(call) => CallOk(s, call)
    case Starting(d) => Owns(s, t, d)
    case WantData(d) => Owns(s, t, d)
    case HasData(d) => Owns(s, t, d)
    case JoinReader(ds) => ds != [] && Owns(s, t, ds[0]) && s.devs[ds[0]].exiting
    case JoinWriter(ds) => ds != [] && Owns(s, t, ds[0]) && s.devs[ds[0]].exiting && s.devs[ds[0]].reader.Over?
    case _ => true
  }

  predicate SlotOk(s: State, d: Dev, slot: Slot) {
    slot.present ==>
      && slot.owner < |s.conns|
      && !slot.reader.Wanting?
      && (slot.reader.Over? || slot.writer.Over? ==> slot.exiting)
      && (slot.mutex.ByWorker? <==> slot.writer.Inside?)
      && (slot.mutex.ByCallback? <==> HoldsData(s.conns[slot.owner], d))
  }

  ghost predicate Inv(s: State) {
    && (forall t :: 0 <= t < |s.conns| ==> (HoldsMap(s.conns[t]) <==> s.mapOwner == Some(t)))
    && (s.mapOwner.Some? ==> s.mapOwner.value < |s.conns|)
    && (forall t :: 0 <= t < |s.conns| ==> PcOk(s, t, s.conns[t]))
    && (forall d :: 0 <= d < |s.devs| ==> SlotOk(s, d, s.devs[d]))
  }

  lemma InvGuard(s: State, d: Dev, w: Worker)
    requires Inv(s) && Enabled(s, Guard(d, w))
    ensures Inv(Next(s, Guard(d, w)))
  {
  }

  lemma InvEnter(s: State, d: Dev)
    requires Inv(s) && Enabled(s, Enter(d))
    ensures Inv(Next(s, Enter(d)))
  {
  }

  lemma InvLeave(s: State, d: Dev, w: Worker, writeError: bool)
    requires Inv(s) && Enabled(s, Leave(d, w, writeError))
    ensures Inv(Next(s, Leave(d, w, writeError)))
  {
  }

  lemma InvBegin(s: State, t: Conn, call: Call)
    requires Inv(s) && Enabled(s, Begin(t, call))
    ensures Inv(Next(s, Begin(t, call)))
  {
  }

  lemma InvTakeMap(s: State, t: Conn)
    requires Inv(s) && Enabled(s, Move(t)) && (s.conns[t].WantMap? || s.conns[t].Started?)
    ensures Inv(Next(s, Move(t)))
  {
  }

  lemma InvInMap(s: State, t: Conn)
    requires Inv(s) && Enabled(s, Move(t)) && s.conns[t].HasMap?
    ensures Inv(Next(s, Move(t)))
  {
  }

  lemma InvTakeData(s: State, t: Conn)
    requires Inv(s) && Enabled(s, Move(t)) && s.conns[t].WantData?
    ensures Inv(Next(s, Move(t)))
  {
  }

  lemma InvDropData(s: State, t: Conn)
    requires Inv(s) && Enabled(s, Move(t)) && (s.conns[t].Starting? || s.conns[t].HasData?)
    ensures Inv(Next(s, Move(t)))
  {
  }

  lemma InvRemove(s: State, t: Conn)
    requires Inv(s) && Enabled(s, Move(t)) && (s.conns[t].Removing? || s.conns[t].JoinReader? || s.conns[t].JoinWriter?)
    ensures Inv(Next(s, Move(t)))
  {
  }

  lemma InvStep(s: State, a: Step)
    requires Inv(s) && Enabled(s, a)
    ensures Inv(Next(s, a))
  {
    match a
    case Begin(t, call) => InvBegin(s, t, call);
    case Guard(d, w) => InvGuard(s, d, w);
    case Enter(d) => InvEnter(s, d);
    case Leave(d, w, writeError) => InvLeave(s, d, w, writeError);
    case Move(t) =>
      var pc := s.conns[t];
      if pc.WantMap? || pc.Started? { InvTakeMap(s, t); }
      else if pc.HasMap? { InvInMap(s, t); }
      else if pc.WantData? { InvTakeData(s, t); }
      else if pc.Starting? || pc.HasData? { InvDropData(s, t); }
      else { InvRemove(s, t); }
  }

  lemma {:induction false} InvRun(s: State, steps: seq<Step>)
    requires Inv(s) && Runs(s, steps)
    ensures Inv(Exec(s, steps))
    decreases |steps|
  {
    if steps != [] {
      InvStep(s, steps[0]);
      InvRun(Next(s, steps[0]), steps[1..]);
    }
  }

  /**
   In every interleaving: one thread at a time is under map_mutex or in a buffer, a callback that found a device
   still has it when it reaches the buffer, and nobody is in the buffer of a device whose workers have been joined.
   */
  lemma BuffersSafe(s0: State, steps: seq<Step>, t: Conn, u: Conn, d: Dev)
    requires Init(s0) && Runs(s0, steps)
    requires t < |Exec(s0, steps).conns| && u < |Exec(s0, steps).conns|
    ensures var s := Exec(s0, steps); var p, q := s.conns[t], s.conns[u];
            && (HoldsMap(p) && HoldsMap(q) ==> t == u)
            && (HoldsData(p, d) && HoldsData(q, d) ==> t == u)
            && (p.WantData? || p.HasData? ==> Present(s, p.d))
            && (HoldsData(p, d) ==> Present(s, d) && !s.devs[d].writer.Inside? && !Deletes(q, d))
  {
    assert Inv(s0);
    InvRun(s0, steps);
    var s := Exec(s0, steps);
    assert PcOk(s, t, s.conns[t]) && PcOk(s, u, s.conns[u]);
    if HoldsData(s.conns[t], d) { assert SlotOk(s, d, s.devs[d]); }
  }

  // ---------------------------------------------------------------- what a callback achieves

  /** A lookup that finds its device goes on to the buffer, having let go of map_mutex, and is there one step later. */
  lemma AppendEnters(s: State, t: Conn, d: Dev)
    requires Enabled(s, Move(t)) && s.conns[t] == HasMap(Append(d))
    ensures var s1 := Next(s, Move(t));
            && s1.mapOwner == None && s1.devs == s.devs
            && (if Owns(s, t, d) then
                  Enabled(s1, Move(t)) == s.devs[d].mutex.Free?
                  && (Enabled(s1, Move(t)) ==> HoldsData(Next(s1, Move(t)).conns[t], d))
                else s1.conns[t].Idle?)
  {
  }

  /** An open of a free handle makes the connection its owner, with both workers running. */
  lemma AddOwns(s: State, t: Conn, d: Dev)
    requires Enabled(s, Move(t)) && s.conns[t] == HasMap(Add(d)) && !s.devs[d].present
    ensures var s' := Next(s, Move(t));
            && Owns(s', t, d) && !s'.devs[d].exiting && HoldsData(s'.conns[t], d) && HoldsMap(s'.conns[t])
            && s'.devs[d].reader.AtGuard? && s'.devs[d].writer.AtGuard?
  {
  }

  /** A removal of `ds` has got so far: what is no longer on its list does not belong to the connection any more. */
  ghost predicate RemovalAt(s: State, t: Conn, ds: seq<Dev>) {
    t < |s.conns| &&
    match s.conns[t]
    case WantMap(call) => call == Remove(ds)
    case HasMap(call) => call == Remove(ds)
    case Removing(rest) => forall d <- ds :: d in rest || !Owns(s, t, d)
    case JoinReader(rest) => forall d <- ds :: d in rest || !Owns(s, t, d)
    case JoinWriter(rest) => forall d <- ds :: d in rest || !Owns(s, t, d)
    case Idle => forall d <- ds :: !Owns(s, t, d)
    case _ => false
  }

  lemma RemovalMove(s: State, t: Conn, ds: seq<Dev>)
    requires RemovalAt(s, t, ds) && Enabled(s, Move(t))
    ensures RemovalAt(Next(s, Move(t)), t, ds)
  {
    var s' := Next(s, Move(t));
    forall d | d in ds && Owns(s', t, d) ensures Owns(s, t, d) {}
    match s.conns[t]
    case Removing(rest) =>
      if rest != [] { assert forall d :: d in rest ==> d == rest[0] || d in rest[1..]; }
    case JoinWriter(rest) => assert forall d :: d in rest ==> d == rest[0] || d in rest[1..];
    case _ =>
  }

  lemma RemovalOther(s: State, a: Step, t: Conn, ds: seq<Dev>)
    requires RemovalAt(s, t, ds) && Enabled(s, a) && a != Move(t) && !(a.Begin? && a.t == t)
    ensures RemovalAt(Next(s, a), t, ds)
  {
    var s' := Next(s, a);
    assert s'.conns[t] == s.conns[t];
    forall d | d in ds && Owns(s', t, d) ensures Owns(s, t, d) {}
  }

  /** Over any run, a removal that has come to its end has removed all it was asked to, whatever the others did. */
  lemma {:induction false} RemovalComplete(s: State, steps: seq<Step>, t: Conn, ds: seq<Dev>)
    requires RemovalAt(s, t, ds) && Runs(s, steps) && forall a <- steps :: !(a.Begin? && a.t == t)
    ensures RemovalAt(Exec(s, steps), t, ds)
    ensures Exec(s, steps).conns[t].Idle? ==> forall d <- ds :: !Owns(Exec(s, steps), t, d)
    decreases |steps|
  {
    if steps != [] {
      var a := steps[0];
      if a == Move(t) { RemovalMove(s, t, ds); } else { RemovalOther(s, a, t, ds); }
      RemovalComplete(Next(s, a), steps[1..], t, ds);
    }
  }

  // ---------------------------------------------------------------- no deadlock

  /** Everything but a new callback and a new round of a worker whose device goes on serving. */
  predicate Urgent(s: State, a: Step)
    requires Enabled(s, a)
  {
    !a.Begin? && (a.Guard? ==> s.devs[a.d].exiting)
  }

  /** Nobody has returned from addDevice without unlocking. */
  predicate NoWedge(s: State) { forall t :: 0 <= t < |s.conns| ==> !s.conns[t].Wedged? }

  ghost predicate CanMove(s: State) { exists a :: Enabled(s, a) && Urgent(s, a) }

  /** A device told to exit, with a worker not over: that worker can move, unless a callback is in its buffer. */
  lemma WorkerMoves(s: State, d: Dev, w: Worker)
    requires Inv(s) && Present(s, d) && s.devs[d].exiting && !At(s, d, w).Over? && !s.devs[d].mutex.ByCallback?
    ensures CanMove(s)
  {
    assert SlotOk(s, d, s.devs[d]);
    var a := match At(s, d, w)
      case AtGuard => Guard(d, w)
      case Wanting => Enter(d)
      case _ => Leave(d, w, false);
    assert Enabled(s, a) && Urgent(s, a);
  }

  lemma DataMoves(s: State, t: Conn)
    requires Inv(s) && t < |s.conns| && s.conns[t].WantData?
    ensures CanMove(s)
  {
    var d := s.conns[t].d;
    assert PcOk(s, t, s.conns[t]) && SlotOk(s, d, s.devs[d]);
    var a := if s.devs[d].mutex.Free? then Move(t) else Leave(d, BufToDev, false);
    assert Enabled(s, a) && Urgent(s, a);
  }

  lemma JoinMoves(s: State, t: Conn)
    requires Inv(s) && t < |s.conns| && (s.conns[t].JoinReader? || s.conns[t].JoinWriter?)
    ensures CanMove(s)
  {
    assert PcOk(s, t, s.conns[t]);
    var d, w := s.conns[t].ds[0], if s.conns[t].JoinReader? then DevToNet else BufToDev;
    assert SlotOk(s, d, s.devs[d]);
    if At(s, d, w).Over? { assert Enabled(s, Move(t)) && Urgent(s, Move(t)); } else { WorkerMoves(s, d, w); }
  }

  lemma HolderMoves(s: State, t: Conn)
    requires Inv(s) && t < |s.conns| && HoldsMap(s.conns[t]) && !s.conns[t].Wedged?
    ensures CanMove(s)
  {
    if s.conns[t].JoinReader? || s.conns[t].JoinWriter? {
      JoinMoves(s, t);
    } else {
      assert PcOk(s, t, s.conns[t]);
      assert Enabled(s, Move(t)) && Urgent(s, Move(t));
    }
  }

  /** With any callback under way, some thread can move without a new callback or a new worker round. */
  lemma Progress(s: State, t: Conn)
    requires Inv(s) && NoWedge(s) && t < |s.conns| && !s.conns[t].Idle?
    ensures CanMove(s)
  {
    var pc := s.conns[t];
    if HoldsMap(pc) {
      HolderMoves(s, t);
    } else if pc.WantData? {
      DataMoves(s, t);
    } else if pc.HasData? || s.mapOwner.None? {
      assert PcOk(s, t, pc);
      assert Enabled(s, Move(t)) && Urgent(s, Move(t));
    } else {
      HolderMoves(s, s.mapOwner.value);
    }
  }

  // ---------------------------------------------------------------- and no livelock

  function Left(pc: Pc): nat {
    match pc
    case Idle => 0
    case Wedged => 0
    case WantMap(call) => LeftInMap(call) + 1
    case HasMap(call) => LeftInMap(call)
    case Starting(_) => 2
    case Started => 1
    case WantData(_) => 2
    case HasData(_) => 1
    case Removing(ds) => 3 * |ds| + 1
    case JoinReader(ds) => 3 * |ds|
    case JoinWriter(ds) => if ds == [] then 0 else 3 * |ds| - 1
  }

  /** An open also brings two workers that may have to leave again. */
  function LeftInMap(call: Call): nat {
    match call case Append(_) => 3 case Add(_) => 5 case Remove(ds) => 3 * |ds| + 2
  }

  function LeftWorker(pc: WorkerPc): nat {
    match pc case Over => 0 case AtGuard => 1 case Inside => 2 case Wanting => 3
  }

  function LeftSlot(slot: Slot): nat {
    if slot.present then LeftWorker(slot.reader) + LeftWorker(slot.writer) else 0
  }

  function Sum<T>(xs: seq<T>, f: T -> nat): nat { if xs == [] then 0 else f(xs[0]) + Sum(xs[1..], f) }

  lemma {:induction false} SumUpdate<T>(xs: seq<T>, f: T -> nat, i: nat, x: T)
    requires i < |xs|
    ensures Sum(xs[i := x], f) == Sum(xs, f) - f(xs[i]) + f(x)
    decreases i
  {
    if i == 0 {
      assert xs[i := x][1..] == xs[1..];
    } else {
      SumUpdate(xs[1..], f, i - 1, x);
      assert xs[i := x][1..] == xs[1..][i - 1 := x];
    }
  }

  function Rank(s: State): nat { Sum(s.conns, Left) + Sum(s.devs, LeftSlot) }

  lemma SumDrops(s: State, s': State, t: nat, d: nat)
    requires t < |s.conns| && t < |s'.conns| && d < |s.devs| && d < |s'.devs|
    requires s'.conns == s.conns[t := s'.conns[t]] && s'.devs == s.devs[d := s'.devs[d]]
    requires Left(s'.conns[t]) + LeftSlot(s'.devs[d]) < Left(s.conns[t]) + LeftSlot(s.devs[d])
    ensures Rank(s') < Rank(s)
  {
    SumUpdate(s.conns, Left, t, s'.conns[t]);
    SumUpdate(s.devs, LeftSlot, d, s'.devs[d]);
  }

  lemma ConnDrops(s: State, s': State, t: nat)
    requires t < |s.conns| && t < |s'.conns| && s'.devs == s.devs
    requires s'.conns == s.conns[t := s'.conns[t]] && Left(s'.conns[t]) < Left(s.conns[t])
    ensures Rank(s') < Rank(s)
  {
    SumUpdate(s.conns, Left, t, s'.conns[t]);
  }

  lemma WorkerDrops(s: State, a: Step)
    requires Inv(s) && Enabled(s, a) && Urgent(s, a) && !a.Move?
    ensures Rank(Next(s, a)) < Rank(s)
  {
    var s' := Next(s, a);
    SumUpdate(s.devs, LeftSlot, a.d, s'.devs[a.d]);
  }

  lemma MoveDrops(s: State, t: Conn)
    requires Inv(s) && Enabled(s, Move(t))
    ensures Rank(Next(s, Move(t))) < Rank(s)
  {
    var s' := Next(s, Move(t));
    match s.conns[t]
    case HasMap(Add(d)) => if s.devs[d].present { ConnDrops(s, s', t); } else { SumDrops(s, s', t, d); }
    case Starting(d) => SumDrops(s, s', t, d);
    case WantData(d) => SumDrops(s, s', t, d);
    case HasData(d) => SumDrops(s, s', t, d);
    case Removing(ds) =>
      if ds != [] && Owns(s, t, ds[0]) { SumDrops(s, s', t, ds[0]); } else { ConnDrops(s, s', t); }
    case JoinWriter(ds) => SumDrops(s, s', t, ds[0]);
    case _ => ConnDrops(s, s', t);
  }

  ghost predicate AllUrgent(s: State, steps: seq<Step>)
    requires Runs(s, steps)
    decreases |steps|
  {
    steps == [] || (Urgent(s, steps[0]) && AllUrgent(Next(s, steps[0]), steps[1..]))
  }

  /**
   No deadlock and no livelock: the callbacks under way, left to themselves under any schedule, make boundedly
   many steps, and they can only stop when all of them are over, or when an open request for a device that its
   own connection already had has left map_mutex locked.
   */
  lemma {:induction false} CallsComplete(s: State, steps: seq<Step>)
    requires Inv(s) && Runs(s, steps) && AllUrgent(s, steps)
    ensures |steps| <= Rank(s)
    ensures var e := Exec(s, steps);
            !CanMove(e) && NoWedge(e) ==> forall t :: 0 <= t < |e.conns| ==> e.conns[t].Idle?
    decreases |steps|
  {
    if steps == [] {
      if t: nat :| t < |s.conns| && !s.conns[t].Idle? && NoWedge(s) { Progress(s, t); }
    } else {
      var a := steps[0];
      InvStep(s, a);
      if a.Move? { MoveDrops(s, a.t); } else { WorkerDrops(s, a); }
      CallsComplete(Next(s, a), steps[1..]);
    }
  }

  /** In that case it stays locked, and whoever waits for it waits for ever. */
  lemma {:induction false} WedgedForever(s: State, steps: seq<Step>, u: Conn, t: Conn)
    requires Inv(s) && Runs(s, steps) && u < |s.conns| && s.conns[u].Wedged?
    requires t < |s.conns| && s.conns[t].WantMap?
    ensures var e := Exec(s, steps);
            |e.conns| == |s.conns| && e.conns[u].Wedged? && e.mapOwner == Some(u) && e.conns[t] == s.conns[t]
    decreases |steps|
  {
    if steps != [] {
      InvStep(s, steps[0]);
      WedgeStep(s, steps[0], u, t);
      WedgedForever(Next(s, steps[0]), steps[1..], u, t);
    }
  }

  lemma WedgeStep(s: State, a: Step, u: Conn, t: Conn)
    requires Inv(s) && Enabled(s, a) && u < |s.conns| && s.conns[u].Wedged? && t < |s.conns| && s.conns[t].WantMap?
    ensures var s' := Next(s, a);
            |s'.conns| == |s.conns| && s'.conns[u].Wedged? && s'.conns[t] == s.conns[t]
  {
  }

  /** A callback gets there exactly by an open request for a device its connection has. */
  lemma WedgeIff(s: State, a: Step)
    requires Inv(s) && Enabled(s, a) && NoWedge(s)
    ensures !NoWedge(Next(s, a)) <==>
              a.Move? && s.conns[a.t].HasMap? && s.conns[a.t].call.Add? && Owns(s, a.t, s.conns[a.t].call.d)
  {
    if a.Move? { assert NoWedge(Next(s, a)) <==> !Next(s, a).conns[a.t].Wedged?; }
  }
}
