/**
 Birth and death of a server Device with its two worker threads: the tthread::thread constructor, wrapper
 function, join and destructor interleaved with Device::Device and Device::~Device.
 */
module Lifecycle {

  /** dev_to_net_thread and buf_to_dev_thread. */
  datatype Worker = DevToNet | BufToDev

  datatype Holder = Free | ByOwner | ByWorker

  /** The code a worker stands in: its loop, then the rest of thread::wrapper_function. */
  datatype WorkerPc =
    | Unborn     // never created (yet)
    | AtGuard    // while (!should_exit)
    | Entering   // about to use the device; buf_to_dev wants net_to_dev_mutex
    | Inside     // uses the handle; buf_to_dev holds the mutex and uses the buffer
    | Returned   // the thread function is over, wants mDataMutex
    | Marking    // holds mDataMutex, about to set mNotAThread
    | Marked     // holds mDataMutex, about to release it
    | Exited

  /** One thread object: mNotAThread, mDataMutex, and whether the object exists. */
  datatype Thread = Thread(pc: WorkerPc, notAThread: bool, dataMutex: Holder, alive: bool)

  /** The constructor and destructor of Device, one shared access per step. */
  datatype OwnerPc =
    | StartLock(w: Worker) | StartMark(w: Worker) | StartCreate(w: Worker) | StartUnlock(w: Worker)
    | MakeBuffer | UnlockBuffer | Serving
    | JoinCheck(w: Worker) | JoinWait(w: Worker)
    | CloseHandle | DeleteThread(w: Worker) | DeleteBuffer | Gone

  datatype State = State(
    owner: OwnerPc,
    devToNet: Thread, bufToDev: Thread,
    shouldExit: bool, handleOpen: bool,
    bufferAlive: bool,       // net_to_dev_buffer and net_to_dev_mutex
    bufferMutex: Holder,
    terminated: bool)        // std::terminate was called
  {
    function Th(w: Worker): Thread { if w.DevToNet? then devToNet else bufToDev }

    function With(w: Worker, t: Thread): State {
      if w.DevToNet? then this.(devToNet := t) else this.(bufToDev := t)
    }
  }

  const UNBORN := Thread(Unborn, false, Free, false)

  /** The handle is open and locked, threads and buffer do not exist; mNotAThread is whatever was in memory. */
  predicate Init(s: State) {
    && s.owner == StartLock(DevToNet)
    && s.devToNet.(notAThread := false) == UNBORN && s.bufToDev.(notAThread := false) == UNBORN
    && !s.shouldExit && s.handleOpen && !s.bufferAlive && s.bufferMutex == Free && !s.terminated
  }

  datatype Step =
    | Owner(ok: bool)                   // the owner's next step; `ok` is pthread_create's luck
    | Destroy                           // somebody deletes the Device
    | Guard(w: Worker) | Enter(w: Worker) | Leave(w: Worker, writeError: bool)
    | TakeData(w: Worker) | SetMark(w: Worker) | Exit(w: Worker)

  predicate Enabled(s: State, a: Step) {
    !s.terminated &&
    match a
    case Owner(_) => (
      match s.owner
      case StartLock(w) => s.Th(w).dataMutex == Free
      case JoinCheck(w) => s.Th(w).dataMutex == Free
      case JoinWait(w) => s.Th(w).pc == Exited
      case DeleteThread(w) => s.Th(w).dataMutex == Free
      case Serving => false
      case Gone => false
      case _ => true)
    case Destroy => s.owner == Serving
    case Guard(w) => s.Th(w).pc == AtGuard
    case Enter(w) => s.Th(w).pc == Entering && (w.BufToDev? ==> s.bufferMutex == Free)
    case Leave(w, writeError) => s.Th(w).pc == Inside && (writeError ==> w.BufToDev?)
    case TakeData(w) => s.Th(w).pc == Returned && s.Th(w).dataMutex == Free
    case SetMark(w) => s.Th(w).pc == Marking
    case Exit(w) => s.Th(w).pc == Marked
  }

  function OwnerStep(s: State, ok: bool): State {
    match s.owner
    case StartLock(w) => s.With(w, s.Th(w).(alive := true, dataMutex := ByOwner)).(owner := StartMark(w))
    case StartMark(w) => s.With(w, s.Th(w).(notAThread := false)).(owner := StartCreate(w))
    case StartCreate(w) =>
      s.With(w, if ok then s.Th(w).(pc := AtGuard) else s.Th(w).(notAThread := true)).(owner := StartUnlock(w))
    case StartUnlock(w) =>
      s.With(w, s.Th(w).(dataMutex := Free)).(owner := if w.DevToNet? then MakeBuffer else UnlockBuffer)
    case MakeBuffer => s.(bufferAlive := true, bufferMutex := ByOwner, owner := StartLock(BufToDev))
    case UnlockBuffer => s.(bufferMutex := Free, owner := Serving)
    case Serving => s
    case JoinCheck(w) =>  // joinable() reads mNotAThread under mDataMutex
      s.(owner := if s.Th(w).notAThread then AfterJoin(w) else JoinWait(w))
    case JoinWait(w) => s.(owner := AfterJoin(w))
    case CloseHandle => s.(handleOpen := false, owner := DeleteThread(DevToNet))
    case DeleteThread(w) =>
      if !s.Th(w).notAThread then s.(terminated := true)
      else s.With(w, s.Th(w).(alive := false)).(owner := if w.DevToNet? then DeleteBuffer else Gone)
    case DeleteBuffer => s.(bufferAlive := false, owner := DeleteThread(BufToDev))
    case Gone => s
  }

  function AfterJoin(w: Worker): OwnerPc { if w.DevToNet? then JoinCheck(BufToDev) else CloseHandle }

  function Next(s: State, a: Step): State
    requires Enabled(s, a)
  {
    match a
    case Owner(ok) => OwnerStep(s, ok)
    case Destroy => s.(shouldExit := true, owner := JoinCheck(DevToNet))
    case Guard(w) => s.With(w, s.Th(w).(pc := if s.shouldExit then Returned else Entering))
    case Enter(w) =>
      var s' := s.With(w, s.Th(w).(pc := Inside));
      if w.BufToDev? then s'.(bufferMutex := ByWorker) else s'
    case Leave(w, writeError) =>
      var s' := s.With(w, s.Th(w).(pc := AtGuard)).(shouldExit := s.shouldExit || writeError);
      if w.BufToDev? then s'.(bufferMutex := Free) else s'
    case TakeData(w) => s.With(w, s.Th(w).(pc := Marking, dataMutex := ByWorker))
    case SetMark(w) => s.With(w, s.Th(w).(pc := Marked, notAThread := true))
    case Exit(w) => s.With(w, s.Th(w).(pc := Exited, dataMutex := Free))
  }

  ghost predicate Runs(s: State, steps: seq<Step>)
    decreases |steps|
  {
    steps == [] || (Enabled(s, steps[0]) && Runs(Next(s, steps[0]), steps[1..]))
  }

  ghost function Exec(s: State, steps: seq<Step>): State
    requires Runs(s, steps)
    decreases |steps|
  {
    if steps == [] then s else Exec(Next(s, steps[0]), steps[1..])
  }

  // ---------------------------------------------------------------- the invariant

  /** How far the owner is. */
  function Stage(pc: OwnerPc): nat {
    match pc
    case StartLock(w) => Base(w)
    case StartMark(w) => Base(w) + 1
    case StartCreate(w) => Base(w) + 2
    case StartUnlock(w) => Base(w) + 3
    case MakeBuffer => 4
    case UnlockBuffer => 9
    case Serving => 10
    case JoinCheck(w) => if w.DevToNet? then 11 else 13
    case JoinWait(w) => if w.DevToNet? then 12 else 14
    case CloseHandle => 15
    case DeleteThread(w) => Deleted(w)
    case DeleteBuffer => 17
    case Gone => 19
  }

  function Base(w: Worker): nat { if w.DevToNet? then 0 else 5 }
  function Joined(w: Worker): nat { if w.DevToNet? then 13 else 15 }
  function Deleted(w: Worker): nat { if w.DevToNet? then 16 else 18 }

  ghost predicate ThreadInv(t: Thread, stage: nat, w: Worker) {
    var b := Base(w);
    && (stage <= b + 2 ==> t.pc == Unborn)
    && (stage == Joined(w) - 1 ==> t.pc != Unborn)
    && (t.dataMutex == ByOwner <==> b + 1 <= stage <= b + 3)
    && (t.dataMutex == ByWorker <==> t.pc == Marking || t.pc == Marked)
    && (stage >= b + 2 ==> (t.notAThread <==> t.pc == Marked || t.pc == Exited || (t.pc == Unborn && stage >= b + 3)))
    && (stage >= Joined(w) ==> t.pc == Exited || t.pc == Unborn)
    && (t.alive <==> b + 1 <= stage <= Deleted(w))
  }

  /** A worker leaves its loop only when told to. */
  ghost predicate LoopLeft(s: State, t: Thread) {
    t.pc != Unborn && t.pc != AtGuard && t.pc != Entering && t.pc != Inside ==> s.shouldExit
  }

  ghost predicate Inv(s: State) {
    var stage := Stage(s.owner);
    && !s.terminated
    && ThreadInv(s.devToNet, stage, DevToNet) && ThreadInv(s.bufToDev, stage, BufToDev)
    && (s.handleOpen <==> stage <= 15)
    && (s.bufferAlive <==> 5 <= stage <= 17)
    && (s.bufferMutex == ByOwner <==> 5 <= stage <= 9)
    && (s.bufferMutex == ByWorker <==> s.bufToDev.pc == Inside)
    && (stage >= 11 ==> s.shouldExit)
    && LoopLeft(s, s.devToNet) && LoopLeft(s, s.bufToDev)
  }

  lemma InitInv(s: State)
    requires Init(s)
    ensures Inv(s)
  {
  }

  lemma InvStartFirst(s: State, ok: bool)
    requires Inv(s) && Enabled(s, Owner(ok)) && Stage(s.owner) <= 1
    ensures Inv(Next(s, Owner(ok)))
  {
  }

  lemma InvCreateFirst(s: State, ok: bool)
    requires Inv(s) && Enabled(s, Owner(ok)) && 2 <= Stage(s.owner) <= 4
    ensures Inv(Next(s, Owner(ok)))
  {
  }

  lemma InvStartSecond(s: State, ok: bool)
    requires Inv(s) && Enabled(s, Owner(ok)) && 5 <= Stage(s.owner) <= 9
    ensures Inv(Next(s, Owner(ok)))
  {
  }

  lemma InvJoin(s: State, ok: bool)
    requires Inv(s) && Enabled(s, Owner(ok)) && 10 <= Stage(s.owner) <= 14
    ensures Inv(Next(s, Owner(ok)))
  {
  }

  lemma InvRelease(s: State, ok: bool)
    requires Inv(s) && Enabled(s, Owner(ok)) && Stage(s.owner) >= 15
    ensures Inv(Next(s, Owner(ok)))
  {
  }

  lemma InvLoop(s: State, a: Step)
    requires Inv(s) && Enabled(s, a) && (a.Guard? || a.Destroy?)
    ensures Inv(Next(s, a))
  {
  }

  lemma InvUse(s: State, a: Step)
    requires Inv(s) && Enabled(s, a) && (a.Enter? || a.Leave?)
    ensures Inv(Next(s, a))
  {
  }

  lemma InvFinish(s: State, a: Step)
    requires Inv(s) && Enabled(s, a) && (a.TakeData? || a.SetMark? || a.Exit?)
    ensures Inv(Next(s, a))
  {
  }

  lemma InvStep(s: State, a: Step)
    requires Inv(s) && Enabled(s, a)
    ensures Inv(Next(s, a))
  {
    match a
    case Owner(ok) =>
      var stage := Stage(s.owner);
      if stage <= 1 { InvStartFirst(s, ok); }
      else if stage <= 4 { InvCreateFirst(s, ok); }
      else if stage <= 9 { InvStartSecond(s, ok); }
      else if stage <= 14 { InvJoin(s, ok); }
      else { InvRelease(s, ok); }
    case Guard(_) => InvLoop(s, a);
    case Destroy => InvLoop(s, a);
    case Enter(_) => InvUse(s, a);
    case Leave(_, _) => InvUse(s, a);
    case _ => InvFinish(s, a);
  }

  lemma {:induction false} InvRun(s: State, steps: seq<Step>)
    requires Inv(s) && Runs(s, steps)
    ensures Inv(Exec(s, steps))
    decreases |steps|
  {
    if steps != [] {
      InvStep(s, steps[0]);
      InvRun(Next(s, steps[0]), steps[1..]);
    }
  }

  // ---------------------------------------------------------------- teardown safety

  /** A worker that is still in its function only ever finds its resources in place. */
  ghost predicate UsesOnlyLive(s: State, w: Worker) {
    var pc := s.Th(w).pc;
    && (pc == AtGuard || pc == Entering || pc == Inside ==> s.handleOpen && (w.BufToDev? ==> s.bufferAlive))
    && (pc != Unborn && pc != Exited ==> s.Th(w).alive)
  }

  /**
   In every interleaving: ~Device never reaches std::terminate, no worker touches a closed handle, a deleted
   mutex or buffer or a deleted thread object, and a thread whose join has returned is marked as over.
   */
  lemma TeardownSafe(s0: State, steps: seq<Step>, w: Worker)
    requires Init(s0) && Runs(s0, steps)
    ensures var s := Exec(s0, steps);
            && !s.terminated
            && UsesOnlyLive(s, w)
            && (Stage(s.owner) >= Joined(w) ==> s.Th(w).notAThread && (s.Th(w).pc == Exited || s.Th(w).pc == Unborn))
            && LoopLeft(s, s.Th(w))
  {
    InitInv(s0);
    InvRun(s0, steps);
  }

  /** Once a thread object says "not a thread", it says so for ever. */
  lemma {:induction false} MarkIsFinal(s: State, steps: seq<Step>, w: Worker)
    requires Inv(s) && Runs(s, steps)
    requires Stage(s.owner) >= Base(w) + 2 && s.Th(w).notAThread
    ensures Exec(s, steps).Th(w).notAThread
    decreases |steps|
  {
    if steps != [] {
      InvStep(s, steps[0]);
      MarkStep(s, steps[0], w);
      MarkIsFinal(Next(s, steps[0]), steps[1..], w);
    }
  }

  lemma MarkStep(s: State, a: Step, w: Worker)
    requires Inv(s) && Enabled(s, a) && Stage(s.owner) >= Base(w) + 2 && s.Th(w).notAThread
    ensures Next(s, a).Th(w).notAThread && Stage(Next(s, a).owner) >= Base(w) + 2
  {
    if a.Owner? {
      OwnerAdvances(s, a.ok);
      MarkOwner(s, a.ok, w);
    }
  }

  /** The owner never goes back. */
  lemma OwnerAdvances(s: State, ok: bool)
    requires Inv(s) && Enabled(s, Owner(ok))
    ensures Stage(Next(s, Owner(ok)).owner) > Stage(s.owner)
  {
  }

  lemma MarkOwner(s: State, ok: bool, w: Worker)
    requires Enabled(s, Owner(ok)) && s.owner != StartMark(w) && s.Th(w).notAThread
    ensures Next(s, Owner(ok)).Th(w).notAThread
  {
  }

  /** A write error or a deletion anywhere in a run tells both workers to leave, for good. */
  lemma {:induction false} ExitIsFinal(s: State, steps: seq<Step>)
    requires Runs(s, steps)
    requires s.shouldExit || exists a <- steps :: a == Destroy || (a.Leave? && a.writeError)
    ensures Exec(s, steps).shouldExit
    decreases |steps|
  {
    if steps != [] {
      ExitStep(s, steps[0]);
      assert steps == [steps[0]] + steps[1..];
      ExitIsFinal(Next(s, steps[0]), steps[1..]);
    }
  }

  lemma ExitStep(s: State, a: Step)
    requires Enabled(s, a)
    ensures s.shouldExit || a == Destroy || (a.Leave? && a.writeError) ==> Next(s, a).shouldExit
  {
  }

  // ---------------------------------------------------------------- teardown completes

  /** Somebody can always move, unless the Device is gone or simply serving with no worker left. */
  lemma Progress(s: State)
    requires Inv(s) && s.owner != Gone
    ensures exists a :: Enabled(s, a)
  {
    if s.owner == Serving {
      assert Enabled(s, Destroy);
    } else if !Enabled(s, Owner(true)) {
      // the owner waits for one thread, which cannot itself be waiting
      var w := s.owner.w;
      match s.Th(w).pc
      case AtGuard => assert Enabled(s, Guard(w));
      case Entering => assert Enabled(s, Enter(w));
      case Inside => assert Enabled(s, Leave(w, false));
      case Returned => assert Enabled(s, TakeData(w));
      case Marking => assert Enabled(s, SetMark(w));
      case Marked => assert Enabled(s, Exit(w));
      case _ =>
    }
  }

  /** Steps a worker can still take once should_exit is set. */
  function Left(pc: WorkerPc): nat {
    match pc
    case Unborn => 0 case Exited => 0 case Marked => 1 case Marking => 2 case Returned => 3
    case AtGuard => 4 case Inside => 5 case Entering => 6
  }

  /** Steps that can still happen in a destructor. */
  function Rank(s: State): int {
    (19 - Stage(s.owner)) + Left(s.devToNet.pc) + Left(s.bufToDev.pc)
  }

  lemma RankDrops(s: State, a: Step)
    requires Inv(s) && Stage(s.owner) >= 11 && Enabled(s, a)
    ensures Rank(Next(s, a)) < Rank(s) && Stage(Next(s, a).owner) >= 11
  {
  }

  /**
   Deleting a Device always completes: from should_exit on, any schedule makes at most 20 steps, and the only
   state it can stop in is the one where everything has been released.
   */
  lemma TeardownCompletes(s: State, steps: seq<Step>)
    requires Inv(s) && Stage(s.owner) >= 11 && Runs(s, steps)
    ensures |steps| <= 20
    ensures (forall a :: !Enabled(Exec(s, steps), a)) ==> Exec(s, steps).owner == Gone
  {
    RankBounds(s);
    RankRun(s, steps);
    InvRun(s, steps);
    if Exec(s, steps).owner != Gone { Progress(Exec(s, steps)); }
  }

  lemma RankBounds(s: State)
    requires Stage(s.owner) >= 11
    ensures 0 <= Rank(s) <= 20
  {
  }

  lemma {:induction false} RankRun(s: State, steps: seq<Step>)
    requires Inv(s) && Stage(s.owner) >= 11 && Runs(s, steps)
    ensures |steps| <= Rank(s)
    decreases |steps|
  {
    if steps == [] {
      RankBounds(s);
    } else {
      var s' := Next(s, steps[0]);
      InvStep(s, steps[0]);
      RankDrops(s, steps[0]);
      RankRun(s', steps[1..]);
    }
  }
}
