/**
 The Win32 condition variable of tinythread: two kernel events and a waiter count, as a transition system
 over any number of threads. Every critical section and every kernel call is one step; between steps any
 thread may run. Event ONE resets itself when it wakes a thread, event ALL stays signalled until ResetEvent.
 */
module CondVar {

  type Tid = nat

  datatype Cause = ByOne | ByAll

  /** Where a thread stands in wait, notify_one or notify_all. */
  datatype Phase =
    | Outside
    | Registered          // counted, in or before WaitForMultipleObjects
    | Woken(cause: Cause) // the wait returned, not yet discounted
    | Resetting           // was the last waiter woken by ALL, about to ResetEvent
    | SignallingOne       // saw waiters, about to SetEvent(ONE)
    | SignallingAll       // saw waiters, about to SetEvent(ALL)

  datatype State = State(phase: map<Tid, Phase>, one: bool, all: bool, waiters: int)

  datatype Step =
    | Register(t: Tid) | Wake(t: Tid) | Decrement(t: Tid) | Reset(t: Tid)
    | CheckOne(t: Tid) | SetOne(t: Tid) | CheckAll(t: Tid) | SetAll(t: Tid)

  predicate Enabled(s: State, a: Step) {
    a.t in s.phase &&
    match a
    case Register(t) => s.phase[t].Outside?
    case Wake(t) => s.phase[t].Registered? && (s.one || s.all)
    case Decrement(t) => s.phase[t].Woken?
    case Reset(t) => s.phase[t].Resetting?
    case CheckOne(t) => s.phase[t].Outside?
    case SetOne(t) => s.phase[t].SignallingOne?
    case CheckAll(t) => s.phase[t].Outside?
    case SetAll(t) => s.phase[t].SignallingAll?
  }

  function Next(s: State, a: Step): State
    requires Enabled(s, a)
  {
    match a
    case Register(t) => s.(phase := s.phase[t := Registered], waiters := s.waiters + 1)
    case Wake(t) =>  // the lower-numbered event wins
      if s.one then s.(phase := s.phase[t := Woken(ByOne)], one := false)
      else s.(phase := s.phase[t := Woken(ByAll)])
    case Decrement(t) =>
      var waiters := s.waiters - 1;
      var lastWaiter := s.phase[t].cause == ByAll && waiters == 0;
      s.(phase := s.phase[t := if lastWaiter then Resetting else Outside], waiters := waiters)
    case Reset(t) => s.(phase := s.phase[t := Outside], all := false)
    case CheckOne(t) => s.(phase := s.phase[t := if s.waiters > 0 then SignallingOne else Outside])
    case SetOne(t) => s.(phase := s.phase[t := Outside], one := true)
    case CheckAll(t) => s.(phase := s.phase[t := if s.waiters > 0 then SignallingAll else Outside])
    case SetAll(t) => s.(phase := s.phase[t := Outside], all := true)
  }

  ghost predicate Runs(s: State, steps: seq<Step>)
    decreases |steps|
  {
    steps == [] || (Enabled(s, steps[0]) && Runs(Next(s, steps[0]), steps[1..]))
  }

  ghost function Exec(s: State, steps: seq<Step>): State
    requires Runs(s, steps)
    decreases |steps|
  {
    if steps == [] then s else Exec(Next(s, steps[0]), steps[1..])
  }

  /** A fresh condition variable: nobody inside, both events unsignalled. */
  ghost predicate Init(s: State) {
    (forall t <- s.phase :: s.phase[t] == Outside) && !s.one && !s.all && s.waiters == 0
  }

  ghost predicate Reachable(s: State) {
    exists s0, steps :: Init(s0) && Runs(s0, steps) && Exec(s0, steps) == s
  }

  // ---------------------------------------------------------------- the waiter count

  ghost predicate Counted(p: Phase) { p.Registered? || p.Woken? }

  ghost function Inside(s: State): set<Tid> {
    set t | t in s.phase && Counted(s.phase[t])
  }

  /** mWaitersCount is exactly the number of threads that registered and have not discounted themselves. */
  ghost predicate CountExact(s: State) { s.waiters == |Inside(s)| }

  lemma CountStep(s: State, a: Step)
    requires Enabled(s, a) && CountExact(s)
    ensures CountExact(Next(s, a))
  {
    InsideStep(s, a, Next(s, a));
  }

  /** The threads inside change by the one that registers or discounts itself. */
  lemma InsideStep(s: State, a: Step, s': State)
    requires Enabled(s, a) && s' == Next(s, a)
    ensures a.Decrement? ==> a.t in Inside(s)
    ensures a.Register? ==> a.t !in Inside(s)
    ensures Inside(s') == if a.Register? then Inside(s) + {a.t}
                          else if a.Decrement? then Inside(s) - {a.t} else Inside(s)
  {
  }

  lemma {:induction false} CountRun(s: State, steps: seq<Step>)
    requires CountExact(s) && Runs(s, steps)
    ensures CountExact(Exec(s, steps))
    decreases |steps|
  {
    if steps != [] {
      CountStep(s, steps[0]);
      CountRun(Next(s, steps[0]), steps[1..]);
    }
  }

  /** In every reachable state; in particular the unsigned counter never wraps below zero. */
  lemma CountAlwaysExact(s: State)
    requires Reachable(s)
    ensures CountExact(s)
    ensures (exists t <- s.phase :: Counted(s.phase[t])) <==> s.waiters > 0
  {
    var s0, steps :| Init(s0) && Runs(s0, steps) && Exec(s0, steps) == s;
    assert Inside(s0) == {};
    CountRun(s0, steps);
    assert forall t <- s.phase :: Counted(s.phase[t]) ==> t in Inside(s);
    if s.waiters > 0 { var t :| t in Inside(s); }
  }

  // ---------------------------------------------------------------- notify_all

  ghost predicate NoResetter(s: State) { forall t <- s.phase :: !s.phase[t].Resetting? }

  /** After the broadcast that led to `s`, the waiters `pending` of that moment have not woken yet. */
  ghost predicate Promised(s: State, pending: set<Tid>) {
    && CountExact(s)
    && (forall t <- pending :: t in s.phase && s.phase[t].Registered?)
    && (pending != {} ==> s.all && NoResetter(s))
  }

  ghost function StillPending(pending: set<Tid>, a: Step): set<Tid> {
    if a.Wake? then pending - {a.t} else pending
  }

  lemma PromiseStep(s: State, a: Step, pending: set<Tid>)
    requires Enabled(s, a) && Promised(s, pending)
    ensures Promised(Next(s, a), StillPending(pending, a))
  {
    CountStep(s, a);
    var s' := Next(s, a);
    var rest := StillPending(pending, a);
    if rest != {} {
      var u :| u in rest;
      assert s'.phase[u].Registered?;
      assert u in Inside(s');
      assert s'.waiters > 0;
      assert NoResetter(s');
    }
  }

  /** The waiters among `pending` that no step of the run wakes. */
  ghost function Unwoken(pending: set<Tid>, steps: seq<Step>): set<Tid> {
    set t | t in pending && Wake(t) !in steps
  }

  lemma {:induction false} PromiseRun(s: State, steps: seq<Step>, pending: set<Tid>)
    requires Promised(s, pending) && Runs(s, steps)
    ensures Promised(Exec(s, steps), Unwoken(pending, steps))
    decreases |steps|
  {
    if steps == [] {
      assert Unwoken(pending, steps) == pending;
    } else {
      PromiseStep(s, steps[0], pending);
      PromiseRun(Next(s, steps[0]), steps[1..], StillPending(pending, steps[0]));
      assert steps == [steps[0]] + steps[1..];
      assert Unwoken(pending, steps) == Unwoken(StillPending(pending, steps[0]), steps[1..]);
    }
  }

  ghost function Waiting(s: State): set<Tid> {
    set t | t in s.phase && s.phase[t].Registered?
  }

  /** The broadcast that led to `s` reaches everyone who was waiting: until a waiter wakes, ALL is there to wake it. */
  ghost predicate ReachesAll(s: State) {
    forall steps, u :: Runs(s, steps) && u in Unwoken(Waiting(s), steps) ==> CanWake(Exec(s, steps), u)
  }

  ghost predicate CanWake(s: State, u: Tid) {
    s.all && Enabled(s, Wake(u))
  }

  lemma SingleStep(s: State, a: Step)
    requires Enabled(s, a)
    ensures Runs(s, [a]) && Exec(s, [a]) == Next(s, a)
  {
    assert Runs(Next(s, a), [a][1..]) && Exec(Next(s, a), [a][1..]) == Next(s, a);
  }

  /**
   notify_all does what it promises exactly when no earlier waiter is caught between its final decrement and
   its ResetEvent. Without such a thread no interleaving of any number of threads strands a waiter; with one,
   its late ResetEvent wipes out the broadcast.
   */
  lemma BroadcastIff(s: State, t: Tid)
    requires Reachable(s) && Enabled(s, SetAll(t)) && Waiting(s) != {}
    ensures ReachesAll(Next(s, SetAll(t))) <==> NoResetter(s)
  {
    var s1 := Next(s, SetAll(t));
    assert Waiting(s1) == Waiting(s);
    CountAlwaysExact(s);
    CountStep(s, SetAll(t));
    if NoResetter(s) {
      assert Promised(s1, Waiting(s1));
      forall steps, u | Runs(s1, steps) && u in Unwoken(Waiting(s1), steps) ensures CanWake(Exec(s1, steps), u) {
        PromiseRun(s1, steps, Waiting(s1));
      }
    } else {
      var r :| r in s.phase && s.phase[r].Resetting?;
      var u :| u in Waiting(s1);
      var steps := [Reset(r)];
      assert s1.phase[r].Resetting?;
      SingleStep(s1, Reset(r));
      assert u in Unwoken(Waiting(s1), steps);
      assert !CanWake(Exec(s1, steps), u);
    }
  }

  // ---------------------------------------------------------------- runs the documentation rules out

  lemma {:induction false} RunsAppend(s: State, steps: seq<Step>, a: Step)
    requires Runs(s, steps) && Enabled(Exec(s, steps), a)
    ensures Runs(s, steps + [a]) && Exec(s, steps + [a]) == Next(Exec(s, steps), a)
    decreases |steps|
  {
    if steps == [] {
      assert (steps + [a])[1..] == [];
    } else {
      RunsAppend(Next(s, steps[0]), steps[1..], a);
      assert (steps + [a])[1..] == steps[1..] + [a];
    }
  }

  lemma ReachableNext(s: State, a: Step)
    requires Reachable(s) && Enabled(s, a)
    ensures Reachable(Next(s, a))
  {
    var s0, steps :| Init(s0) && Runs(s0, steps) && Exec(s0, steps) == s;
    RunsAppend(s0, steps, a);
  }

  /** Three threads; two of them come and go, thread 2 notifies. */
  function Three(p0: Phase, p1: Phase, p2: Phase, one: bool, all: bool, waiters: int): State {
    State(map[0 := p0, 1 := p1, 2 := p2], one, all, waiters)
  }

  lemma Reach(s: State, a: Step, s': State)
    requires Reachable(s) && Enabled(s, a) && s' == Next(s, a)
    ensures Reachable(s')
  {
    ReachableNext(s, a);
  }

  /** Thread 0 waits and is the only one to hear a broadcast, which stays signalled. */
  lemma BroadcastToOne()
    ensures Reachable(Three(Registered, Outside, Outside, false, false, 1))
    ensures Reachable(Three(Registered, Outside, Outside, false, true, 1))
  {
    var s0 := Three(Outside, Outside, Outside, false, false, 0);
    assert Init(s0) && Runs(s0, []) && Exec(s0, []) == s0;
    var s1 := Three(Registered, Outside, Outside, false, false, 1);
    Reach(s0, Register(0), s1);
    var s2 := Three(Registered, Outside, SignallingAll, false, false, 1);
    Reach(s1, CheckAll(2), s2);
    Reach(s2, SetAll(2), Three(Registered, Outside, Outside, false, true, 1));
  }

  lemma LastWaiterLeaves()
    ensures Reachable(Three(Resetting, Outside, Outside, false, true, 0))
  {
    BroadcastToOne();
    var s := Three(Woken(ByAll), Outside, Outside, false, true, 1);
    Reach(Three(Registered, Outside, Outside, false, true, 1), Wake(0), s);
    Reach(s, Decrement(0), Three(Resetting, Outside, Outside, false, true, 0));
  }

  /** The harm of BroadcastIff does occur: thread 2 broadcasts to waiter 1 while thread 0 is about to reset. */
  lemma ResetterOccurs()
    ensures Reachable(Three(Resetting, Registered, SignallingAll, false, true, 1))
  {
    LastWaiterLeaves();
    var s := Three(Resetting, Registered, Outside, false, true, 1);
    Reach(Three(Resetting, Outside, Outside, false, true, 0), Register(1), s);
    Reach(s, CheckAll(2), Three(Resetting, Registered, SignallingAll, false, true, 1));
  }

  // ---------------------------------------------------------------- who is woken: late waiters

  /** In some run from `s`, thread `t` ends up woken for the given cause. */
  ghost predicate CanBeWokenBy(s: State, t: Tid, cause: Cause) {
    exists steps :: Runs(s, steps) && t in Exec(s, steps).phase && Exec(s, steps).phase[t] == Woken(cause)
  }

  lemma RunsCons(s: State, a: Step, rest: seq<Step>)
    requires Enabled(s, a) && Runs(Next(s, a), rest)
    ensures Runs(s, [a] + rest) && Exec(s, [a] + rest) == Exec(Next(s, a), rest)
  {
    assert ([a] + rest)[1..] == rest;
  }

  lemma WokenLater(s: State, a: Step, t: Tid, cause: Cause)
    requires Enabled(s, a) && CanBeWokenBy(Next(s, a), t, cause)
    ensures CanBeWokenBy(s, t, cause)
  {
    var rest :| Runs(Next(s, a), rest) && t in Exec(Next(s, a), rest).phase
                && Exec(Next(s, a), rest).phase[t] == Woken(cause);
    RunsCons(s, a, rest);
  }

  lemma WokenNow(s: State, t: Tid, cause: Cause)
    requires t in s.phase && s.phase[t] == Woken(cause)
    ensures CanBeWokenBy(s, t, cause)
  {
    assert Runs(s, []) && Exec(s, []) == s;
  }

  /** A thread that starts to wait is woken by whatever event is up. */
  lemma WaitWakes(s: State, t: Tid)
    requires t in s.phase && s.phase[t].Outside?
    ensures s.one ==> CanBeWokenBy(s, t, ByOne)
    ensures !s.one && s.all ==> CanBeWokenBy(s, t, ByAll)
  {
    var s1 := Next(s, Register(t));
    if s.one || s.all {
      var cause := if s.one then ByOne else ByAll;
      WokenNow(Next(s1, Wake(t)), t, cause);
      WokenLater(s1, Wake(t), t, cause);
      WokenLater(s, Register(t), t, cause);
    }
  }

  /**
   The promise that a notification wakes only threads already waiting is never kept, by either call and from
   any state: a thread that is not waiting while the event is set - the notifier itself - can start to wait
   afterwards and be woken by it.
   */
  lemma LateWaiterWakes(s: State, t: Tid)
    ensures Enabled(s, SetOne(t)) ==> CanBeWokenBy(Next(s, SetOne(t)), t, ByOne)
    ensures Enabled(s, SetAll(t)) ==> CanBeWokenBy(Next(s, SetAll(t)), t, ByAll)
  {
    if Enabled(s, SetOne(t)) { WaitWakes(Next(s, SetOne(t)), t); }
    if Enabled(s, SetAll(t)) {
      var s1 := Next(s, SetAll(t));
      if s1.one { DrainOne(s1, t); } else { WaitWakes(s1, t); }
    }
  }

  /** With both events up, a first wait takes ONE and a second one finds ALL. */
  lemma DrainOne(s: State, t: Tid)
    requires t in s.phase && s.phase[t].Outside? && s.one && s.all
    ensures CanBeWokenBy(s, t, ByAll)
  {
    var s1 := Next(s, Register(t));
    var s2 := Next(s1, Wake(t));
    var s3 := Next(s2, Decrement(t));
    WaitWakes(s3, t);
    WokenLater(s2, Decrement(t), t, ByAll);
    WokenLater(s1, Wake(t), t, ByAll);
    WokenLater(s, Register(t), t, ByAll);
  }

  // ---------------------------------------------------------------- who is woken: lost notifications

  ghost function Up(s: State): nat { if s.one then 1 else 0 }

  /** SetEvent(ONE) calls of a run: notify_one calls that saw a waiter. */
  ghost function SetOnes(steps: seq<Step>): nat {
    if steps == [] then 0 else (if steps[0].SetOne? then 1 else 0) + SetOnes(steps[1..])
  }

  /** Waits of a run that ONE ended. */
  ghost function OneWakes(s: State, steps: seq<Step>): nat
    requires Runs(s, steps)
    decreases |steps|
  {
    if steps == [] then 0
    else (if steps[0].Wake? && s.one then 1 else 0) + OneWakes(Next(s, steps[0]), steps[1..])
  }

  /** SetEvent(ONE) calls of a run that find ONE already up. */
  ghost function LostOnes(s: State, steps: seq<Step>): nat
    requires Runs(s, steps)
    decreases |steps|
  {
    if steps == [] then 0
    else (if steps[0].SetOne? && s.one then 1 else 0) + LostOnes(Next(s, steps[0]), steps[1..])
  }

  /**
   The account of notify_one over every run: each signal wakes one waiter, or is still up, or was lost - and
   the lost ones are exactly those whose SetEvent found the event up.
   */
  lemma {:induction false} NotifyOneAccount(s: State, steps: seq<Step>)
    requires Runs(s, steps)
    ensures Up(s) + SetOnes(steps) == OneWakes(s, steps) + LostOnes(s, steps) + Up(Exec(s, steps))
    decreases |steps|
  {
    if steps != [] { NotifyOneAccount(Next(s, steps[0]), steps[1..]); }
  }

  /** A loss happens: of two notify_one calls on two waiters the second finds ONE up, and one waiter stays asleep. */
  lemma NotifyOneCoalesces()
    ensures var s := Three(Registered, Registered, Outside, true, false, 2);
            && Reachable(s) && Enabled(s, CheckOne(2))
            && Enabled(Next(s, CheckOne(2)), SetOne(2)) && Next(Next(s, CheckOne(2)), SetOne(2)) == s
            && Enabled(s, Wake(0)) && !Enabled(Next(s, Wake(0)), Wake(1))
  {
    BroadcastToOne();
    var s1 := Three(Registered, Registered, Outside, false, false, 2);
    Reach(Three(Registered, Outside, Outside, false, false, 1), Register(1), s1);
    var s2 := Three(Registered, Registered, SignallingOne, false, false, 2);
    Reach(s1, CheckOne(2), s2);
    Reach(s2, SetOne(2), Three(Registered, Registered, Outside, true, false, 2));
  }

  // ---------------------------------------------------------------- when a broadcast is taken back

  /** At some point of the run a thread is about to call ResetEvent. */
  ghost predicate ResetDue(s: State, steps: seq<Step>)
    requires Runs(s, steps)
    decreases |steps|
  {
    !NoResetter(s) || (steps != [] && ResetDue(Next(s, steps[0]), steps[1..]))
  }

  /** Somewhere in the run, the only thread inside leaves, and it was ALL that woke it. */
  ghost predicate LastLeavesByAll(s: State, steps: seq<Step>)
    requires Runs(s, steps)
    decreases |steps|
  {
    steps != [] && ((steps[0].Decrement? && s.phase[steps[0].t] == Woken(ByAll) && Inside(s) == {steps[0].t})
                    || LastLeavesByAll(Next(s, steps[0]), steps[1..]))
  }

  lemma ResetterComes(s: State, a: Step)
    requires CountExact(s) && NoResetter(s) && Enabled(s, a)
    ensures NoResetter(Next(s, a)) <==> !(a.Decrement? && s.phase[a.t] == Woken(ByAll) && Inside(s) == {a.t})
    ensures s.all ==> Next(s, a).all
  {
    var s' := Next(s, a);
    if a.Decrement? {
      assert a.t in Inside(s);
      if s.waiters == 1 { OnlyOne(Inside(s), a.t); }
      assert s'.phase[a.t].Resetting? <==> s.phase[a.t] == Woken(ByAll) && Inside(s) == {a.t};
    }
  }

  lemma OnlyOne(inside: set<Tid>, t: Tid)
    requires t in inside && |inside| == 1
    ensures inside == {t}
  {
    assert |inside - {t}| == 0;
  }

  /**
   Exactly when a broadcast is taken back: over any run in which nobody is resetting at first, a reset falls
   due iff the last thread inside leaves as one woken by ALL. As long as that does not happen the event stays
   up, even with no thread left inside.
   */
  lemma {:induction false} ResetIff(s: State, steps: seq<Step>)
    requires CountExact(s) && NoResetter(s) && Runs(s, steps)
    ensures ResetDue(s, steps) <==> LastLeavesByAll(s, steps)
    ensures s.all && !LastLeavesByAll(s, steps) ==> Exec(s, steps).all
    decreases |steps|
  {
    if steps != [] {
      var a, s' := steps[0], Next(s, steps[0]);
      ResetterComes(s, a);
      CountStep(s, a);
      if NoResetter(s') { ResetIff(s', steps[1..]); }
    }
  }

  lemma BothSignals()
    ensures Reachable(Three(Registered, Outside, Outside, true, true, 1))
  {
    BroadcastToOne();
    var s := Three(Registered, SignallingOne, Outside, false, true, 1);
    Reach(Three(Registered, Outside, Outside, false, true, 1), CheckOne(1), s);
    Reach(s, SetOne(1), Three(Registered, Outside, Outside, true, true, 1));
  }

  /** It does go wrong: ALL is up, nobody is inside and nobody will reset it. */
  lemma StaleBroadcast()
    ensures Reachable(Three(Outside, Outside, Outside, false, true, 0))
  {
    BothSignals();
    var s := Three(Woken(ByOne), Outside, Outside, false, true, 1);
    Reach(Three(Registered, Outside, Outside, true, true, 1), Wake(0), s);
    Reach(s, Decrement(0), Three(Outside, Outside, Outside, false, true, 0));
  }

  // ---------------------------------------------------------------- nobody to notify

  /** Nobody waits, is about to signal, or is signalled. */
  ghost predicate Silent(s: State) {
    && Inside(s) == {} && !s.one && !s.all
    && (forall t <- s.phase :: !s.phase[t].SignallingOne? && !s.phase[t].SignallingAll?)
  }

  lemma SilentStep(s: State, a: Step)
    requires CountExact(s) && Silent(s) && Enabled(s, a) && !a.Register?
    ensures Silent(Next(s, a))
  {
    InsideStep(s, a, Next(s, a));
  }

  /** A notification with nobody waiting leaves no trace: as long as nobody registers, no event is ever up. */
  lemma {:induction false} SilentRun(s: State, steps: seq<Step>)
    requires CountExact(s) && Silent(s) && Runs(s, steps) && forall a <- steps :: !a.Register?
    ensures Silent(Exec(s, steps)) && !Exec(s, steps).one && !Exec(s, steps).all
    decreases |steps|
  {
    if steps != [] {
      SilentStep(s, steps[0]);
      CountStep(s, steps[0]);
      SilentRun(Next(s, steps[0]), steps[1..]);
    }
  }

  /** With somebody waiting, either call goes on to set its event. */
  lemma NotifySignals(s: State, t: Tid)
    requires Reachable(s) && t in s.phase && s.phase[t].Outside? && Inside(s) != {}
    ensures Enabled(s, CheckOne(t)) && Enabled(Next(s, CheckOne(t)), SetOne(t))
    ensures Next(Next(s, CheckOne(t)), SetOne(t)) == s.(one := true)
    ensures Enabled(s, CheckAll(t)) && Enabled(Next(s, CheckAll(t)), SetAll(t))
    ensures Next(Next(s, CheckAll(t)), SetAll(t)) == s.(all := true)
  {
    CountAlwaysExact(s);
    var u :| u in Inside(s);
    assert s.waiters > 0;
    assert s.phase[t := SignallingOne][t := Outside] == s.phase;
    assert s.phase[t := SignallingAll][t := Outside] == s.phase;
  }
}
