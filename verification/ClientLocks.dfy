/**
 The client's locks: global_mutex and one Device::mutex per device, taken by API calls and by the network
 callback on any number of threads. bindy_read holds both and lets go of the global one first; callback_data
 holds the device one inside the global one.
 */
module ClientLocks {
  import opened Options

  type Dev = nat
  type Tid = nat

  /** A call, by the locks it takes. */
  datatype Call =
    | Read(d: Option<Dev>)      // bindy_read; None when the connection has no device
    | RawData(d: Option<Dev>)   // callback_data; None when the packet goes to a throwaway Device
    | Brief                     // global_mutex only: polling, opening, closing, looking up, other packets

  datatype Pc =
    | Idle
    | WantGlobal(call: Call)
    | HasGlobal(call: Call)
    | WantDevice(call: Call, d: Dev)   // holding global_mutex
    | HasBoth(call: Call, d: Dev)
    | HasDevice(d: Dev)                // bindy_read copying out, global_mutex already released

  datatype State = State(threads: seq<Pc>, globalOwner: Option<Tid>, devOwner: map<Dev, Tid>)

  datatype Step = Begin(t: Tid, call: Call) | Move(t: Tid)

  function Target(call: Call): Option<Dev> { if call.Brief? then None else call.d }

  predicate Enabled(s: State, a: Step) {
    a.t < |s.threads| &&
    match a
    case Begin(t, _) => s.threads[t].Idle?
    case Move(t) =>
      match s.threads[t]
      case Idle => false
      case WantGlobal(_) => s.globalOwner.None?
      case WantDevice(_, d) => d !in s.devOwner
      case _ => true
  }

  /** The next lock operation of a thread. */
  function Next(s: State, a: Step): State
    requires Enabled(s, a)
  {
    var t := a.t;
    match a
    case Begin(_, call) => s.(threads := s.threads[t := WantGlobal(call)])
    case Move(_) =>
      match s.threads[t]
      case Idle => s
      case WantGlobal(call) => s.(threads := s.threads[t := HasGlobal(call)], globalOwner := Some(t))
      case HasGlobal(call) =>
        (match Target(call)
         case Some(d) => s.(threads := s.threads[t := WantDevice(call, d)])
         case None => s.(threads := s.threads[t := Idle], globalOwner := None))
      case WantDevice(call, d) => s.(threads := s.threads[t := HasBoth(call, d)], devOwner := s.devOwner[d := t])
      case HasBoth(call, d) =>
        if call.Read? then s.(threads := s.threads[t := HasDevice(d)], globalOwner := None)
        else s.(threads := s.threads[t := HasGlobal(Brief)], devOwner := s.devOwner - {d})
      case HasDevice(d) => s.(threads := s.threads[t := Idle], devOwner := s.devOwner - {d})
  }

  ghost predicate Runs(s: State, steps: seq<Step>)
    decreases |steps|
  {
    steps == [] || (Enabled(s, steps[0]) && Runs(Next(s, steps[0]), steps[1..]))
  }

  ghost function Exec(s: State, steps: seq<Step>): State
    requires Runs(s, steps)
    decreases |steps|
  {
    if steps == [] then s else Exec(Next(s, steps[0]), steps[1..])
  }

  ghost predicate Init(s: State) {
    (forall t :: 0 <= t < |s.threads| ==> s.threads[t].Idle?) && s.globalOwner == None && s.devOwner == map[]
  }

  // ---------------------------------------------------------------- who holds what

  predicate HoldsGlobal(p: Pc) { p.HasGlobal? || p.WantDevice? || p.HasBoth? }
  predicate HoldsDevice(p: Pc, d: Dev) { (p.HasBoth? || p.HasDevice?) && p.d == d }

  ghost predicate Inv(s: State) {
    && (forall t: Tid :: t < |s.threads| ==> (HoldsGlobal(s.threads[t]) <==> s.globalOwner == Some(t)))
    && (s.globalOwner.Some? ==> s.globalOwner.value < |s.threads|)
    && (forall t: Tid, d: Dev :: t < |s.threads| ==>
          (HoldsDevice(s.threads[t], d) <==> d in s.devOwner && s.devOwner[d] == t))
    && (forall d <- s.devOwner :: s.devOwner[d] < |s.threads|)
  }

  lemma InvStep(s: State, a: Step)
    requires Inv(s) && Enabled(s, a)
    ensures Inv(Next(s, a))
  {
  }

  lemma {:induction false} InvRun(s: State, steps: seq<Step>)
    requires Inv(s) && Runs(s, steps)
    ensures Inv(Exec(s, steps)) && |Exec(s, steps).threads| == |s.threads|
    decreases |steps|
  {
    if steps != [] {
      InvStep(s, steps[0]);
      InvRun(Next(s, steps[0]), steps[1..]);
    }
  }

  /** Two threads are never inside the same buffer, and never both under global_mutex. */
  lemma MutualExclusion(s0: State, steps: seq<Step>, t: Tid, u: Tid, d: Dev)
    requires Init(s0) && Runs(s0, steps) && t < |s0.threads| && u < |s0.threads|
    ensures var s := Exec(s0, steps);
            && t < |s.threads| && u < |s.threads|
            && (HoldsGlobal(s.threads[t]) && HoldsGlobal(s.threads[u]) ==> t == u)
            && (HoldsDevice(s.threads[t], d) && HoldsDevice(s.threads[u], d) ==> t == u)
  {
    assert Inv(s0);
    InvRun(s0, steps);
    var s := Exec(s0, steps);
    assert forall v :: v == t || v == u ==> (HoldsDevice(s.threads[v], d) <==> d in s.devOwner && s.devOwner[d] == v);
  }

  /**
   How the locks are handed on: a device is always locked from under global_mutex; bindy_read then lets go of
   global_mutex and keeps the device, the callback lets go of the device and keeps global_mutex.
   */
  lemma HandOver(s: State, t: Tid)
    requires Inv(s) && Enabled(s, Move(t))
    ensures var s' := Next(s, Move(t)); var p, p' := s.threads[t], s'.threads[t];
            && (forall d :: HoldsDevice(p', d) && !HoldsDevice(p, d) ==> HoldsGlobal(p) && HoldsGlobal(p'))
            && (p.HasGlobal? && Target(p.call).Some? ==> p' == WantDevice(p.call, Target(p.call).value))
            && (p.HasBoth? && p.call.Read? ==> s'.globalOwner == None && HoldsDevice(p', p.d))
            && (p.HasBoth? && !p.call.Read? ==> HoldsGlobal(p') && !HoldsDevice(p', p.d) && p.d !in s'.devOwner)
  {
  }

  // ---------------------------------------------------------------- deadlock freedom

  /** If any thread is inside a call, some thread inside a call can move. */
  lemma Progress(s: State, t: Tid)
    requires Inv(s) && t < |s.threads| && !s.threads[t].Idle?
    ensures exists u :: Enabled(s, Move(u))
  {
    if !Enabled(s, Move(t)) {
      match s.threads[t]
      case WantGlobal(_) =>
        var u := s.globalOwner.value;
        if !Enabled(s, Move(u)) { BlockedOnDevice(s, u); }
      case WantDevice(_, _) => BlockedOnDevice(s, t);
    }
  }

  /** A thread blocked on a device mutex waits for a bindy_read that holds nothing else and never waits. */
  lemma BlockedOnDevice(s: State, t: Tid)
    requires Inv(s) && t < |s.threads| && s.threads[t].WantDevice? && !Enabled(s, Move(t))
    ensures var d := s.threads[t].d;
            && d in s.devOwner && s.devOwner[d] < |s.threads|
            && s.threads[s.devOwner[d]] == HasDevice(d) && Enabled(s, Move(s.devOwner[d]))
  {
    var d := s.threads[t].d;
    assert HoldsDevice(s.threads[s.devOwner[d]], d);
    assert HoldsGlobal(s.threads[t]);
  }

  /** Lock operations a thread has still to make in its call. */
  function Left(p: Pc): nat {
    match p
    case Idle => 0
    case WantGlobal(call) => if Target(call).None? then 2 else 6
    case HasGlobal(call) => if Target(call).None? then 1 else 5
    case WantDevice(_, _) => 4
    case HasBoth(_, _) => 3
    case HasDevice(_) => 1
  }

  function TotalLeft(threads: seq<Pc>): nat {
    if threads == [] then 0 else Left(threads[0]) + TotalLeft(threads[1..])
  }

  lemma TotalUpdate(threads: seq<Pc>, t: nat, p: Pc)
    requires t < |threads|
    ensures TotalLeft(threads[t := p]) == TotalLeft(threads) - Left(threads[t]) + Left(p)
  {
    if t > 0 {
      TotalUpdate(threads[1..], t - 1, p);
      assert threads[t := p][1..] == threads[1..][t - 1 := p];
    } else {
      assert threads[t := p][1..] == threads[1..];
    }
  }

  lemma LeftDrops(s: State, t: Tid)
    requires Enabled(s, Move(t))
    ensures var s' := Next(s, Move(t));
            && |s'.threads| == |s.threads| && s'.threads == s.threads[t := s'.threads[t]]
            && Left(s'.threads[t]) < Left(s.threads[t])
  {
  }

  lemma TotalDrops(s: State, t: Tid)
    requires Enabled(s, Move(t))
    ensures TotalLeft(Next(s, Move(t)).threads) < TotalLeft(s.threads)
  {
    LeftDrops(s, t);
    TotalUpdate(s.threads, t, Next(s, Move(t)).threads[t]);
  }

  ghost predicate Stuck(s: State) { forall u :: !Enabled(s, Move(u)) }
  ghost predicate AllIdle(s: State) { forall t :: 0 <= t < |s.threads| ==> s.threads[t].Idle? }

  /**
   No deadlock and no livelock: from any reachable state the calls under way, left to themselves under any
   schedule, make boundedly many lock operations, and the only way to get stuck is that every call is over.
   */
  lemma {:induction false} CallsComplete(s: State, steps: seq<Step>)
    requires Inv(s) && Runs(s, steps) && forall a <- steps :: a.Move?
    ensures |steps| <= TotalLeft(s.threads)
    ensures Stuck(Exec(s, steps)) ==> AllIdle(Exec(s, steps))
    decreases |steps|
  {
    if steps == [] {
      if t: nat :| t < |s.threads| && !s.threads[t].Idle? { Progress(s, t); }
    } else {
      InvStep(s, steps[0]);
      assert steps[0].Move?;
      TotalDrops(s, steps[0].t);
      CallsComplete(Next(s, steps[0]), steps[1..]);
    }
  }
}
