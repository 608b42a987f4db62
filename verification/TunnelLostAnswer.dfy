/**
 The other half of what a bindy_open means: one whose device was opened and whose positive answer arrived can
 still fail, because the flag it waits for belongs to the serial and others may take it down first.
 */
module TunnelLostAnswer {
  import opened Codec
  import opened DeviceTable
  import opened Tunnel
  import opened TunnelInvariant
  import opened TunnelRuns
  import opened TunnelHandshake
  import Client
  import Server

  // ---------------------------------------------------------------- the flag

  /** The steps that take open_ok[serial] down: a reset, the end of an open, a negative answer. */
  predicate Lowers(s: State, a: Step, serial: Serial)
    requires Enabled(s, a)
  {
    match a
    case OpenReset(_, ser) => ser == serial
    case OpenFinish(c) => s.links[c].serial == serial
    case ClientDeliver(c) => ClientView(s.links[c].down[0]) == OpenAnswer(serial, false)
    case _ => false
  }

  /** No other step takes the flag down, and each of these does. */
  lemma FlagFallsIff(s: State, a: Step, serial: Serial)
    requires Enabled(s, a) && Client.AnsweredOk(s.client, serial)
    ensures !Client.AnsweredOk(Next(s, a).client, serial) <==> Lowers(s, a, serial)
  {
  }

  ghost predicate NeverLowered(s: State, steps: seq<Step>, serial: Serial)
    requires Runs(s, steps)
    decreases |steps|
  {
    steps == [] || (!Lowers(s, steps[0], serial) && NeverLowered(Next(s, steps[0]), steps[1..], serial))
  }

  lemma {:induction false} FlagStays(s: State, steps: seq<Step>, serial: Serial)
    requires Client.AnsweredOk(s.client, serial) && Runs(s, steps) && NeverLowered(s, steps, serial)
    ensures Client.AnsweredOk(Exec(s, steps).client, serial)
    decreases |steps|
  {
    if steps != [] {
      FlagFallsIff(s, steps[0], serial);
      FlagStays(Next(s, steps[0]), steps[1..], serial);
    }
  }

  // ---------------------------------------------------------------- an answered open

  /** The open on `d` is in its last wait. */
  predicate Waiting(s: State, d: ConnId, serial: Serial) {
    d in s.links && s.links[d].serial == serial && s.links[d].phase == Polling
  }

  /** The open on `d` waits, and the flag is up. */
  predicate Answered(s: State, d: ConnId, serial: Serial) {
    Waiting(s, d, serial) && Client.AnsweredOk(s.client, serial)
  }

  predicate Failing(s: State, d: ConnId) { d in s.links && s.links[d].phase == Failed }

  /** Another open of the serial is under way, or a negative answer for it may still arrive. */
  ghost predicate MayLoseFlag(s: State, d: ConnId, serial: Serial) {
    exists c :: c in s.links && s.links[c].serial == serial
                && ((c != d && Opening(s.links[c].phase)) || MayAnswer(s.links[c], false))
  }

  /** Some run in which no further open of the serial begins during the call makes it fail. */
  ghost predicate CanFail(s: State, d: ConnId, serial: Serial) {
    exists steps :: Runs(s, steps) && NoRival(s, steps, d, serial) && Failing(Exec(s, steps), d)
  }

  // ---------------------------------------------------------------- the answer is safe

  ghost predicate Secure(s: State, d: ConnId, serial: Serial) {
    Answered(s, d, serial) && !MayLoseFlag(s, d, serial)
  }

  lemma NoNewThief(s: State, a: Step, d: ConnId, serial: Serial, c: ConnId)
    requires Inv(s) && Secure(s, d, serial) && Enabled(s, a) && !Restarts(a, serial)
    requires c in Next(s, a).links && Next(s, a).links[c].serial == serial
    ensures !(c != d && Opening(Next(s, a).links[c].phase)) && !MayAnswer(Next(s, a).links[c], false)
  {
    if c in s.links {
      LinkGrows(s, a, c);
      PhaseStep(s, a, c);
      if MayAnswer(Next(s, a).links[c], false) { MayAnswerShrinks(s, a, c, false); }
    }
  }

  /** Whoever takes the flag down is one of those MayLoseFlag speaks of, or the open itself. */
  lemma WhoLowers(s: State, a: Step, d: ConnId, serial: Serial)
    requires Inv(s) && Enabled(s, a) && Lowers(s, a, serial) && !Restarts(a, serial)
    ensures a == OpenFinish(d) || MayLoseFlag(s, d, serial)
  {
    if a.ClientDeliver? {
      assert LinkInv(s, a.c);
      assert DownShape(s.links[a.c].down[0], s.links[a.c].serial, s.links[a.c].granted);
      assert AnswerComing(s.links[a.c], false);
    }
  }

  lemma WaitingStep(s: State, a: Step, d: ConnId, serial: Serial)
    requires Answered(s, d, serial) && Enabled(s, a)
    ensures var s' := Next(s, a);
            d in s'.links && s'.links[d].serial == serial
            && s'.links[d].phase == if a == OpenFinish(d) then Open else Polling
  {
    LinkGrows(s, a, d);
    if a.c != d { Isolation(s, a, d); assert At(Next(s, a).links, d) == At(s.links, d); }
  }

  lemma FlagKept(s: State, a: Step, d: ConnId, serial: Serial)
    requires Inv(s) && Secure(s, d, serial) && Enabled(s, a) && !Restarts(a, serial) && a != OpenFinish(d)
    ensures Client.AnsweredOk(Next(s, a).client, serial)
  {
    FlagFallsIff(s, a, serial);
    if Lowers(s, a, serial) { WhoLowers(s, a, d, serial); }
  }

  lemma SecureStep(s: State, a: Step, d: ConnId, serial: Serial)
    requires Inv(s) && Secure(s, d, serial) && Enabled(s, a) && !Restarts(a, serial)
    ensures if a == OpenFinish(d) then d in Next(s, a).links && Next(s, a).links[d].phase == Open
            else Secure(Next(s, a), d, serial)
  {
    WaitingStep(s, a, d, serial);
    if a != OpenFinish(d) {
      FlagKept(s, a, d, serial);
      NoThieves(s, a, d, serial);
    }
  }

  lemma NoThieves(s: State, a: Step, d: ConnId, serial: Serial)
    requires Inv(s) && Secure(s, d, serial) && Enabled(s, a) && !Restarts(a, serial)
    ensures !MayLoseFlag(Next(s, a), d, serial)
  {
    var s' := Next(s, a);
    forall c | c in s'.links && s'.links[c].serial == serial
      ensures !(c != d && Opening(s'.links[c].phase)) && !MayAnswer(s'.links[c], false)
    {
      NoNewThief(s, a, d, serial, c);
    }
  }

  lemma {:induction false} OpenStays(s: State, steps: seq<Step>, d: ConnId)
    requires Runs(s, steps) && d in s.links && s.links[d].phase == Open
    ensures !Failing(Exec(s, steps), d)
    decreases |steps|
  {
    if steps != [] {
      var a := steps[0];
      LinkGrows(s, a, d);
      if a.c != d { Isolation(s, a, d); assert At(Next(s, a).links, d) == At(s.links, d); }
      OpenStays(Next(s, a), steps[1..], d);
    }
  }

  lemma {:induction false} SecureRun(s: State, steps: seq<Step>, d: ConnId, serial: Serial)
    requires Inv(s) && Secure(s, d, serial) && Runs(s, steps) && NoRival(s, steps, d, serial)
    ensures !Failing(Exec(s, steps), d)
    decreases |steps|
  {
    if steps != [] {
      InvStep(s, steps[0]);
      SecureStep(s, steps[0], d, serial);
      if steps[0] == OpenFinish(d) {
        OpenStays(Next(s, steps[0]), steps[1..], d);
      } else {
        SecureRun(Next(s, steps[0]), steps[1..], d, serial);
      }
    }
  }

  // ---------------------------------------------------------------- the answer is lost

  lemma FinishFailed(s0: State, s: State, d: ConnId, serial: Serial)
    requires LeadsTo(s0, s, serial) && Waiting(s, d, serial) && !Client.AnsweredOk(s.client, serial)
    ensures CanFail(s0, d, serial)
  {
    Onwards(s0, s, serial, OpenFinish(d));
    var s' := Next(s, OpenFinish(d));
    var steps :| Runs(s0, steps) && Exec(s0, steps) == s' && forall a <- steps :: !Restarts(a, serial);
    QuietRun(s0, steps, d, serial);
    assert Failing(Exec(s0, steps), d);
  }

  lemma StillWaiting(s: State, a: Step, d: ConnId, serial: Serial)
    requires Waiting(s, d, serial) && Enabled(s, a) && (a.c != d || a.ClientDeliver? || a.ServerDeliver?)
    ensures Waiting(Next(s, a), d, serial)
  {
    LinkGrows(s, a, d);
    if a.c != d { Isolation(s, a, d); assert At(Next(s, a).links, d) == At(s.links, d); }
  }

  /** Another open of the serial that runs to its end takes the flag with it. */
  lemma TakenBy(s0: State, s: State, c: ConnId, d: ConnId, serial: Serial)
    requires LeadsTo(s0, s, serial) && Waiting(s, d, serial)
    requires c != d && c in s.links && s.links[c].serial == serial && Opening(s.links[c].phase)
    ensures CanFail(s0, d, serial)
    decreases if s.links[c].phase == Preparing then 2 else if s.links[c].phase == Connected then 1 else 0
  {
    var a := if s.links[c].phase == Preparing then OpenConnect(c, true)
             else if s.links[c].phase == Connected then OpenSend(c, false) else OpenFinish(c);
    Onwards(s0, s, serial, a);
    StillWaiting(s, a, d, serial);
    if a.OpenFinish? { FinishFailed(s0, Next(s, a), d, serial); } else { TakenBy(s0, Next(s, a), c, d, serial); }
  }

  /** Delivering everything up to a negative answer takes the flag down. */
  lemma DeniedUpTo(s0: State, s: State, c: ConnId, d: ConnId, serial: Serial, i: nat)
    requires LeadsTo(s0, s, serial) && Waiting(s, d, serial) && c in s.links
    requires i < |s.links[c].down| && ClientView(s.links[c].down[i]) == OpenAnswer(serial, false)
    ensures CanFail(s0, d, serial)
    decreases i
  {
    var a := ClientDeliver(c);
    Onwards(s0, s, serial, a);
    StillWaiting(s, a, d, serial);
    var s1 := Next(s, a);
    if i == 0 {
      FinishFailed(s0, s1, d, serial);
    } else {
      assert s1.links[c].down == s.links[c].down[1..];
      assert s1.links[c].down[i - 1] == s.links[c].down[i];
      DeniedUpTo(s0, s1, c, d, serial, i - 1);
    }
  }

  /** The server can refuse a request that is still on its way. */
  lemma RequestDenied(s: State, c: ConnId, serial: Serial)
    requires Inv(s) && c in s.links && s.links[c].serial == serial && s.links[c].live
    requires s.links[c].up != [] && IsOpenRequest(s.links[c].up[0])
    ensures Enabled(s, ServerDeliver(c, false, true))
    ensures c in Next(s, ServerDeliver(c, false, true)).links
    ensures var down := Next(s, ServerDeliver(c, false, true)).links[c].down;
            down != [] && ClientView(down[|down| - 1]) == OpenAnswer(serial, false)
  {
    FrontRequest(s, c);
    DenialEffect(s, c, serial);
    AnswerViews(serial, false);
  }

  lemma FrontRequest(s: State, c: ConnId)
    requires Inv(s) && c in s.links && s.links[c].up != [] && IsOpenRequest(s.links[c].up[0])
    ensures ServerView(s.links[c].up[0]) == OpenRequest(s.links[c].serial) && !Has(s.server, c, s.links[c].serial)
  {
    assert LinkInv(s, c);
    assert UpShape(s.links[c].up[0], s.links[c].serial, true);
    OpenFindsNothing(s, c);
  }

  lemma DenialEffect(s: State, c: ConnId, serial: Serial)
    requires Enabled(s, ServerDeliver(c, false, true)) && s.links[c].live
    requires ServerView(s.links[c].up[0]) == OpenRequest(serial) && !Has(s.server, c, serial)
    ensures c in Next(s, ServerDeliver(c, false, true)).links
    ensures Next(s, ServerDeliver(c, false, true)).links[c].down == s.links[c].down + [OpenAns(serial, false)]
  {
  }

  lemma DeniedBy(s: State, c: ConnId, d: ConnId, serial: Serial)
    requires Inv(s) && Waiting(s, d, serial) && c in s.links && s.links[c].serial == serial
    requires MayAnswer(s.links[c], false) && (c == d || !Opening(s.links[c].phase))
    ensures CanFail(s, d, serial)
  {
    NoStep(s, serial);
    if AnswerComing(s.links[c], false) {
      var i :| 0 <= i < |s.links[c].down| && ClientView(s.links[c].down[i]) == OpenAnswer(serial, false);
      DeniedUpTo(s, s, c, d, serial, i);
    } else {
      DeniedRequest(s, c, d, serial);
    }
  }

  lemma DeniedRequest(s: State, c: ConnId, d: ConnId, serial: Serial)
    requires Inv(s) && Waiting(s, d, serial) && LeadsTo(s, s, serial)
    requires c in s.links && s.links[c].serial == serial && s.links[c].live
    requires s.links[c].up != [] && IsOpenRequest(s.links[c].up[0])
    ensures CanFail(s, d, serial)
  {
    var a := ServerDeliver(c, false, true);
    RequestDenied(s, c, serial);
    var s1 := Next(s, a);
    Onwards(s, s, serial, a);
    StillWaiting(s, a, d, serial);
    LastDenied(s, s1, c, d, serial, s1.links[c].down);
  }

  lemma LastDenied(s0: State, s: State, c: ConnId, d: ConnId, serial: Serial, down: seq<Packet>)
    requires LeadsTo(s0, s, serial) && Waiting(s, d, serial) && c in s.links && s.links[c].down == down
    requires down != [] && ClientView(down[|down| - 1]) == OpenAnswer(serial, false)
    ensures CanFail(s0, d, serial)
  {
    DeniedUpTo(s0, s, c, d, serial, |down| - 1);
  }

  /**
   Exactly when an answered open can still fail, while no further open of the serial begins: iff another one
   is under way, or a negative answer for the serial may still arrive.
   */
  lemma FailIff(s: State, d: ConnId, serial: Serial)
    requires Reachable(s) && Answered(s, d, serial)
    ensures CanFail(s, d, serial) <==> MayLoseFlag(s, d, serial)
  {
    InvReachable(s);
    if MayLoseFlag(s, d, serial) {
      LosesFlag(s, d, serial);
    } else {
      forall steps | Runs(s, steps) && NoRival(s, steps, d, serial) ensures !Failing(Exec(s, steps), d) {
        SecureRun(s, steps, d, serial);
      }
    }
  }

  lemma LosesFlag(s: State, d: ConnId, serial: Serial)
    requires Inv(s) && Waiting(s, d, serial) && MayLoseFlag(s, d, serial)
    ensures CanFail(s, d, serial)
  {
    var c :| c in s.links && s.links[c].serial == serial
             && ((c != d && Opening(s.links[c].phase)) || MayAnswer(s.links[c], false));
    if c != d && Opening(s.links[c].phase) {
      NoStep(s, serial);
      TakenBy(s, s, c, d, serial);
    } else {
      DeniedBy(s, c, d, serial);
    }
  }

  /** A new open of the serial takes the answer at once: the waiting open fails, and keeps the device on the server. */
  lemma RivalTakesAnswer(s: State, d: ConnId, e: ConnId, serial: Serial)
    requires Answered(s, d, serial) && e !in s.links
    ensures var s1 := Next(s, OpenReset(e, serial));
            && Enabled(s1, OpenFinish(d))
            && var s2 := Next(s1, OpenFinish(d));
               Failing(s2, d) && s2.server == s.server && s2.links[d].granted == s.links[d].granted
  {
  }

  ghost predicate EverFails(s: State, d: ConnId) {
    exists steps :: Runs(s, steps) && Failing(Exec(s, steps), d)
  }

  /**
   All runs of an answered open: one that makes it fail has such a cause at the start, or a further open of the
   serial begins during the call; and there is such a run iff one of these is possible.
   */
  lemma FailRuns(s: State, d: ConnId, serial: Serial)
    requires Reachable(s) && Answered(s, d, serial)
    ensures forall steps :: Runs(s, steps) && Failing(Exec(s, steps), d) ==>
              MayLoseFlag(s, d, serial) || !NoRival(s, steps, d, serial)
    ensures EverFails(s, d) <==> MayLoseFlag(s, d, serial) || exists e: ConnId :: e !in s.links
  {
    FailIff(s, d, serial);
    if e: ConnId :| e !in s.links { RivalFails(s, d, e, serial); }
    if EverFails(s, d) && !MayLoseFlag(s, d, serial) {
      var steps :| Runs(s, steps) && Failing(Exec(s, steps), d);
      RivalUnused(s, steps, d, serial);
    }
  }

  lemma RivalFails(s: State, d: ConnId, e: ConnId, serial: Serial)
    requires Answered(s, d, serial) && e !in s.links
    ensures EverFails(s, d)
  {
    RivalTakesAnswer(s, d, e, serial);
    var a, b := OpenReset(e, serial), OpenFinish(d);
    assert Runs(s, []) && Exec(s, []) == s;
    RunsAppend(s, [], a);
    RunsAppend(s, [] + [a], b);
    assert Failing(Exec(s, [] + [a] + [b]), d);
  }

  // ---------------------------------------------------------------- it happens

  /** A connection opened, granted its device and answered, with nobody else there. */
  lemma AnsweredOccurs(c: ConnId, serial: Serial) returns (s: State)
    ensures Reachable(s) && Answered(s, c, serial) && s.links.Keys == {c}
    ensures s.links[c].granted && c in s.heard && Has(s.server, c, serial)
  {
    var s1 := RequestOccurs(c, serial);
    ReachNext(s1, ServerDeliver(c, true, true));
    var s2 := Next(s1, ServerDeliver(c, true, true));
    RequestViews(serial);
    AnswerViews(serial, true);
    assert s2.links[c].down == [] + [OpenAns(serial, true)];
    ReachNext(s2, ClientDeliver(c));
    s := Next(s2, ClientDeliver(c));
  }

  lemma RequestOccurs(c: ConnId, serial: Serial) returns (s: State)
    ensures Reachable(s) && Waiting(s, c, serial) && s.links.Keys == {c}
    ensures s.links[c].up == [OpenReq(serial)] && s.links[c].down == [] && s.links[c].live
    ensures s.server == Init().server
  {
    assert Runs(Init(), []) && Exec(Init(), []) == Init();
    ReachNext(Init(), OpenReset(c, serial));
    var s1 := Next(Init(), OpenReset(c, serial));
    ReachNext(s1, OpenConnect(c, true));
    var s2 := Next(s1, OpenConnect(c, true));
    ReachNext(s2, OpenSend(c, true));
    s := Next(s2, OpenSend(c, true));
    assert s.links[c].up == [] + [OpenReq(serial)];
  }

  /** An open fails although the server has opened its device and said so, and goes on holding it. */
  lemma GrantedYetFailed(c: ConnId, e: ConnId, serial: Serial) returns (s: State)
    requires c != e
    ensures Reachable(s) && Failing(s, c) && s.links[c].granted && c in s.heard && Has(s.server, c, serial)
  {
    var s1 := AnsweredOccurs(c, serial);
    RivalTakesAnswer(s1, c, e, serial);
    ReachNext(s1, OpenReset(e, serial));
    var s2 := Next(s1, OpenReset(e, serial));
    ReachNext(s2, OpenFinish(c));
    s := Next(s2, OpenFinish(c));
  }
}
