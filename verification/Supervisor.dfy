/** Retry rules for a lost SPICE connection. */
module ReconnectPolicy {
  import opened Options

  datatype TicketBlock = SingleUse | Expired(expiredAt: nat)

  datatype GiveUp = Exhausted | Ticket(block: TicketBlock)

  datatype Decision = RetryAfter(secs: nat) | Stop(why: GiveUp)

  datatype Policy = Policy(singleUse: bool, validUntil: Option<nat>)

  const RECONNECT_BACKOFF_SECS: seq<nat> := [1, 4, 16]
  const RECONNECT_CLUSTER_RESET: nat := 300

  function ForbidRetry(p: Policy, wall: nat): Option<TicketBlock> {
    if p.singleUse then Some(SingleUse)
    else if p.validUntil.Some? && wall >= p.validUntil.value then Some(Expired(p.validUntil.value))
    else None
  }

  /** Time since `then`, zero if it lies in the future. */
  function Since(now: nat, before: nat): nat {
    if now < before then 0 else now - before
  }

  function NextStep(p: Policy, now: nat, wall: nat, lastGiveUp: Option<nat>, failed: nat): Decision {
    if ForbidRetry(p, wall).Some? then Stop(Ticket(ForbidRetry(p, wall).value))
    else if failed == 0 && lastGiveUp.Some? && Since(now, lastGiveUp.value) < RECONNECT_CLUSTER_RESET then
      Stop(Exhausted)
    else if failed < |RECONNECT_BACKOFF_SECS| then RetryAfter(RECONNECT_BACKOFF_SECS[failed])
    else Stop(Exhausted)
  }
}

/** The supervisor that runs SPICE attempts one after the other, against any environment. */
module Supervisor {
  import opened Options
  import opened ReconnectPolicy

  /** How one attempt ended. */
  datatype AttemptEnd = AttemptEnd(reachedSession: bool, ok: bool)

  /** What the environment does in one round: the attempt ends, or the run is stopped while it is
      under way; then the wall clock read for the retry decision; then the wait runs out or the run
      is stopped in it; then the wall clock read for the ticket check. */
  datatype Round =
    | StoppedInAttempt
    | Round(end: AttemptEnd, wall: nat, stoppedInWait: bool, wallAfter: nat)

  datatype Event =
    | Started(number: nat)
    | Finished(end: AttemptEnd)
    | Waited(secs: nat)
    | TicketChecked(wall: nat)

  /** How a run stands: an attempt under way, stopped from outside, or returned of its own accord
      with the last attempt's result. */
  datatype Fate = Running | Stopped | FirstFailed(ok: bool) | GaveUp(why: GiveUp, ok: bool)

  datatype Run = Run(trace: seq<Event>, fate: Fate)

  /** Whether giving up returns success: never when the retries are exhausted. */
  function GiveUpResult(why: GiveUp, ok: bool): bool {
    ok && why != Exhausted
  }

  function SaturatingInc(n: nat): nat {
    if n < 255 then n + 1 else 255
  }

  function FailedAfter(failed: nat, end: AttemptEnd): nat {
    if end.reachedSession then 0 else SaturatingInc(failed)
  }

  /** One turn of the loop: it ends the run, or goes on to the next attempt. */
  datatype Turn = Ends(events: seq<Event>, fate: Fate) | GoesOn(events: seq<Event>, failed: nat)

  function TurnOf(p: Policy, number: nat, failed: nat, r: Round): Turn {
    if r.StoppedInAttempt? then Ends([Started(number)], Stopped)
    else if number == 1 && !r.end.reachedSession then
      Ends([Started(number), Finished(r.end)], FirstFailed(r.end.ok))
    else
      var failed' := FailedAfter(failed, r.end);
      match NextStep(p, 0, r.wall, None, failed')
      case Stop(why) => Ends([Started(number), Finished(r.end)], GaveUp(why, GiveUpResult(why, r.end.ok)))
      case RetryAfter(secs) =>
        if r.stoppedInWait then Ends([Started(number), Finished(r.end), Waited(secs)], Stopped)
        else
          var events := [Started(number), Finished(r.end), Waited(secs), TicketChecked(r.wallAfter)];
          var block := ForbidRetry(p, r.wallAfter);
          if block.Some? then Ends(events, GaveUp(Ticket(block.value), r.end.ok)) else GoesOn(events, failed')
  }

  /** The run from attempt `number` on, after `failed` failures in a row. */
  function RunFrom(p: Policy, number: nat, failed: nat, script: seq<Round>): Run
    decreases |script|
  {
    if script == [] then Run([Started(number)], Running)
    else
      match TurnOf(p, number, failed, script[0])
      case Ends(events, fate) => Run(events, fate)
      case GoesOn(events, failed') =>
        var rest := RunFrom(p, number + 1, failed', script[1..]);
        Run(events + rest.trace, rest.fate)
  }

  method TakeTurn(p: Policy, number: nat, failed: nat, r: Round) returns (turn: Turn)
    ensures turn == TurnOf(p, number, failed, r)
  {
    var events := [Started(number)];
    if r.StoppedInAttempt? {
      return Ends(events, Stopped);
    }
    events := events + [Finished(r.end)];
    if number == 1 && !r.end.reachedSession {
      return Ends(events, FirstFailed(r.end.ok));
    }
    var failed' := if r.end.reachedSession then 0 else SaturatingInc(failed);
    var decision := NextStep(p, 0, r.wall, None, failed');
    if decision.Stop? {
      return Ends(events, GaveUp(decision.why, GiveUpResult(decision.why, r.end.ok)));
    }
    events := events + [Waited(decision.secs)];
    if r.stoppedInWait {
      return Ends(events, Stopped);
    }
    events := events + [TicketChecked(r.wallAfter)];
    var block := ForbidRetry(p, r.wallAfter);
    if block.Some? {
      return Ends(events, GaveUp(Ticket(block.value), r.end.ok));
    }
    return GoesOn(events, failed');
  }

  /** The supervisor's loop, one round of the environment per turn. */
  method Supervise(p: Policy, script: seq<Round>) returns (run: Run)
    ensures run == RunFrom(p, 1, 0, script)
  {
    hide TurnOf;
    var number: nat, failed: nat := 1, 0;
    var trace: seq<Event> := [];
    assert script[0..] == script;
    for i := 0 to |script|
      invariant var rest := RunFrom(p, number, failed, script[i..]);
                RunFrom(p, 1, 0, script) == Run(trace + rest.trace, rest.fate)
    {
      assert script[i..][0] == script[i] && script[i..][1..] == script[i + 1..];
      var turn := TakeTurn(p, number, failed, script[i]);
      trace := trace + turn.events;
      if turn.Ends? {
        return Run(trace, turn.fate);
      }
      failed := turn.failed;
      number := number + 1;
    }
    return Run(trace + [Started(number)], Running);
  }

  // ----- Measures of a trace

  function Attempts(t: seq<Event>): nat {
    if t == [] then 0 else (if t[0].Started? then 1 else 0) + Attempts(t[1..])
  }

  function Sessions(t: seq<Event>): nat {
    if t == [] then 0 else (if t[0].Finished? && t[0].end.reachedSession then 1 else 0) + Sessions(t[1..])
  }

  function Backoff(t: seq<Event>): nat {
    if t == [] then 0 else (if t[0].Waited? then t[0].secs else 0) + Backoff(t[1..])
  }

  lemma {:induction false} MeasuresConcat(a: seq<Event>, b: seq<Event>)
    ensures Attempts(a + b) == Attempts(a) + Attempts(b)
    ensures Sessions(a + b) == Sessions(a) + Sessions(b)
    ensures Backoff(a + b) == Backoff(a) + Backoff(b)
  {
    if a == [] {
      assert a + b == b;
    } else {
      assert (a + b)[1..] == a[1..] + b;
      MeasuresConcat(a[1..], b);
    }
  }

  lemma {:induction false} MeasuresSingle(e: Event)
    ensures Attempts([e]) == if e.Started? then 1 else 0
    ensures Sessions([e]) == if e.Finished? && e.end.reachedSession then 1 else 0
    ensures Backoff([e]) == if e.Waited? then e.secs else 0
  {
    assert [e][1..] == [];
    assert Attempts([]) == 0 && Sessions([]) == 0 && Backoff([]) == 0;
  }

  lemma {:induction false} MeasuresHead(number: nat, end: AttemptEnd)
    ensures var t := [Started(number), Finished(end)];
            && Attempts(t) == 1 && Backoff(t) == 0
            && Sessions(t) == (if end.reachedSession then 1 else 0)
  {
    MeasuresConcat([Started(number)], [Finished(end)]);
    MeasuresSingle(Started(number));
    MeasuresSingle(Finished(end));
    assert [Started(number)] + [Finished(end)] == [Started(number), Finished(end)];
  }

  lemma {:induction false} MeasuresWait(number: nat, end: AttemptEnd, secs: nat, wall: nat)
    ensures var t := [Started(number), Finished(end), Waited(secs)];
            var u := [Started(number), Finished(end), Waited(secs), TicketChecked(wall)];
            && Attempts(t) == Attempts(u) == 1 && Backoff(t) == Backoff(u) == secs
            && Sessions(t) == Sessions(u) == (if end.reachedSession then 1 else 0)
  {
    var head := [Started(number), Finished(end)];
    MeasuresHead(number, end);
    MeasuresConcat(head, [Waited(secs)]);
    MeasuresSingle(Waited(secs));
    MeasuresConcat(head + [Waited(secs)], [TicketChecked(wall)]);
    MeasuresSingle(TicketChecked(wall));
    assert head + [Waited(secs)] == [Started(number), Finished(end), Waited(secs)];
    assert head + [Waited(secs)] + [TicketChecked(wall)]
        == [Started(number), Finished(end), Waited(secs), TicketChecked(wall)];
  }

  /** What one turn adds to the measures. */
  lemma {:induction false} TurnMeasures(p: Policy, number: nat, failed: nat, r: Round)
    requires failed <= 2
    ensures var turn := TurnOf(p, number, failed, r);
            && Attempts(turn.events) == 1
            && Sessions(turn.events) == (if r.Round? && r.end.reachedSession then 1 else 0)
            && (turn.GoesOn? ==>
                  && r.Round? && turn.failed == FailedAfter(failed, r.end) <= 2
                  && (number == 1 ==> r.end.reachedSession)
                  && Backoff(turn.events) == RECONNECT_BACKOFF_SECS[turn.failed])
            && (turn.Ends? ==>
                  Backoff(turn.events) == 0
                  || (r.Round? && FailedAfter(failed, r.end) <= 2
                      && Backoff(turn.events) == RECONNECT_BACKOFF_SECS[FailedAfter(failed, r.end)]))
            && (Sessions(turn.events) == 0 && number == 1 ==> turn.Ends? && Backoff(turn.events) == 0)
  {
    MeasuresSingle(Started(number));
    if r.Round? {
      MeasuresHead(number, r.end);
      var decision := NextStep(p, 0, r.wall, None, FailedAfter(failed, r.end));
      if decision.RetryAfter? { MeasuresWait(number, r.end, decision.secs, r.wallAfter); }
    }
  }

  /** The backoff still to come in a cluster that has already waited for retry `failed + 1`. */
  function BackoffLeft(failed: nat): nat {
    if failed == 0 then 20 else if failed == 1 then 16 else 0
  }

  /** From the second attempt on: what is left of this cluster, and a whole one per session. */
  lemma {:induction false} LaterAttemptsBounded(p: Policy, number: nat, failed: nat, script: seq<Round>)
    requires 2 <= number && failed <= 2
    ensures var t := RunFrom(p, number, failed, script).trace;
            && Attempts(t) <= 3 * Sessions(t) + 3 - failed
            && Backoff(t) <= 21 * Sessions(t) + BackoffLeft(failed)
    decreases |script|
  {
    hide TurnOf;
    MeasuresSingle(Started(number));
    if script != [] {
      var turn := TurnOf(p, number, failed, script[0]);
      TurnMeasures(p, number, failed, script[0]);
      if turn.GoesOn? {
        LaterAttemptsBounded(p, number + 1, turn.failed, script[1..]);
        MeasuresConcat(turn.events, RunFrom(p, number + 1, turn.failed, script[1..]).trace);
      }
    }
  }

  /** Over every run: a first attempt without a session ends it; otherwise k sessions allow at
      most 3k + 1 attempts and 21k seconds of backoff. */
  lemma {:induction false} SupervisorBounded(p: Policy, script: seq<Round>)
    ensures var t := RunFrom(p, 1, 0, script).trace;
            var k := Sessions(t);
            && (k == 0 ==> Attempts(t) == 1 && Backoff(t) == 0)
            && (k >= 1 ==> Attempts(t) <= 3 * k + 1 && Backoff(t) <= 21 * k)
  {
    hide TurnOf;
    MeasuresSingle(Started(1));
    if script != [] {
      var turn := TurnOf(p, 1, 0, script[0]);
      TurnMeasures(p, 1, 0, script[0]);
      if turn.GoesOn? {
        LaterAttemptsBounded(p, 2, turn.failed, script[1..]);
        MeasuresConcat(turn.events, RunFrom(p, 2, turn.failed, script[1..]).trace);
      }
    }
  }

  // ----- What guards each attempt, and how runs end

  /** The ticket can be used at `wall`: it is good for more than one attempt and has not run out. */
  predicate Usable(p: Policy, wall: nat) {
    !p.singleUse && (p.validUntil.Some? ==> wall < p.validUntil.value)
  }

  lemma {:induction false} ForbiddenIff(p: Policy, wall: nat)
    ensures ForbidRetry(p, wall).None? <==> Usable(p, wall)
    ensures ForbidRetry(p, wall).Some? ==>
              ForbidRetry(p, wall).value == if p.singleUse then SingleUse else Expired(p.validUntil.value)
  {
  }

  /** The retry decision itself: after one, four and sixteen seconds, while the ticket is usable; but
      not at all within five minutes of having given up before. */
  lemma {:induction false} NextStepMeans(p: Policy, now: nat, wall: nat, lastGiveUp: Option<nat>, failed: nat)
    ensures var step := NextStep(p, now, wall, lastGiveUp, failed);
            var flap := failed == 0 && lastGiveUp.Some? && now < lastGiveUp.value + 300;
            && (step.Stop? && step.why.Ticket? <==> p.singleUse || (p.validUntil.Some? && p.validUntil.value <= wall))
            && (step.RetryAfter? <==> Usable(p, wall) && !flap && failed <= 2)
            && (step.RetryAfter? ==> step.secs == if failed == 0 then 1 else if failed == 1 then 4 else 16)
  {
  }

  /** Every attempt but the first comes right after a check that found the ticket usable. */
  ghost predicate Guarded(p: Policy, t: seq<Event>) {
    forall i :: 0 <= i < |t| && t[i].Started? && t[i].number != 1 ==>
                  && 0 < i && t[i - 1].TicketChecked?
                  && !p.singleUse && (p.validUntil.Some? ==> t[i - 1].wall < p.validUntil.value)
  }

  lemma {:induction false} TurnGuarded(p: Policy, number: nat, failed: nat, r: Round, wall: nat)
    requires Usable(p, wall) || number == 1
    ensures var turn := TurnOf(p, number, failed, r);
            && Guarded(p, [TicketChecked(wall)] + turn.events)
            && (turn.GoesOn? ==>
                  && r.Round? && |turn.events| == 4 && turn.events[3] == TicketChecked(r.wallAfter)
                  && Usable(p, r.wallAfter))
  {
  }

  lemma {:induction false} GuardedFrom(p: Policy, number: nat, failed: nat, script: seq<Round>, wall: nat)
    requires Usable(p, wall) || number == 1
    ensures Guarded(p, [TicketChecked(wall)] + RunFrom(p, number, failed, script).trace)
    decreases |script|
  {
    hide TurnOf;
    if script != [] {
      var r := script[0];
      var turn := TurnOf(p, number, failed, r);
      TurnGuarded(p, number, failed, r, wall);
      if turn.GoesOn? {
        hide Guarded, Usable;
        GuardedFrom(p, number + 1, turn.failed, script[1..], r.wallAfter);
        var rest := RunFrom(p, number + 1, turn.failed, script[1..]).trace;
        var head := [TicketChecked(wall)] + turn.events;
        GuardedPrefix(p, head);
        GuardedConcat(p, head[..|head| - 1], [TicketChecked(r.wallAfter)] + rest);
        assert [TicketChecked(wall)] + (turn.events + rest)
            == head[..|head| - 1] + ([TicketChecked(r.wallAfter)] + rest);
      }
    }
  }

  lemma {:induction false} GuardedPrefix(p: Policy, t: seq<Event>)
    requires Guarded(p, t) && t != []
    ensures Guarded(p, t[..|t| - 1])
  {
  }

  lemma {:induction false} GuardedConcat(p: Policy, a: seq<Event>, b: seq<Event>)
    requires Guarded(p, a) && Guarded(p, b)
    ensures Guarded(p, a + b)
  {
    var t := a + b;
    forall i | 0 <= i < |t| && t[i].Started? && t[i].number != 1
      ensures 0 < i && t[i - 1].TicketChecked? && Usable(p, t[i - 1].wall)
    {
      if i >= |a| {
        assert t[i] == b[i - |a|] && t[i - 1] == b[i - |a| - 1];
      } else {
        assert t[i] == a[i] && t[i - 1] == a[i - 1];
      }
    }
  }

  lemma {:induction false} EveryRetryIsGuarded(p: Policy, script: seq<Round>)
    ensures Guarded(p, RunFrom(p, 1, 0, script).trace)
  {
    var t := RunFrom(p, 1, 0, script).trace;
    GuardedFrom(p, 1, 0, script, 0);
    var u := [TicketChecked(0)] + t;
    assert t[0] == Started(1);
    forall i | 0 <= i < |t| && t[i].Started? && t[i].number != 1
      ensures 0 < i && t[i - 1].TicketChecked? && Usable(p, t[i - 1].wall)
    {
      assert u[i + 1] == t[i] && u[i] == t[i - 1];
    }
  }

  /** Running out of retries is always an error, a first attempt without a session ends the run
      with its own result, and a single-use ticket allows one attempt only. */
  lemma {:induction false} RunEndings(p: Policy, number: nat, failed: nat, script: seq<Round>)
    requires 1 <= number && failed <= 2
    ensures var run := RunFrom(p, number, failed, script);
            && (run.fate.GaveUp? && run.fate.why.Exhausted? ==> !run.fate.ok && !p.singleUse)
            && (run.fate.FirstFailed? <==>
                  number == 1 && script != [] && script[0].Round? && !script[0].end.reachedSession)
            && (run.fate.FirstFailed? ==> run.fate.ok == script[0].end.ok && Attempts(run.trace) == 1)
            && (p.singleUse ==> Attempts(run.trace) == 1)
    decreases |script|
  {
    MeasuresSingle(Started(number));
    if script != [] {
      var turn := TurnOf(p, number, failed, script[0]);
      TurnMeasures(p, number, failed, script[0]);
      if turn.GoesOn? {
        RunEndings(p, number + 1, turn.failed, script[1..]);
        MeasuresConcat(turn.events, RunFrom(p, number + 1, turn.failed, script[1..]).trace);
      }
    }
  }

  // ----- Every event, and the end, told by the script and the policy

  /** Failed attempts since the last session. */
  function Streak(t: seq<Event>): nat {
    if t == [] then 0
    else
      var before, last := Streak(t[..|t| - 1]), t[|t| - 1];
      if !last.Finished? then before else if last.end.reachedSession then 0 else before + 1
  }

  /** Whether `e` is right after `t`: attempts are numbered from one; a later attempt needs a ticket
      found usable just before; a result, the wall clock and the length of each wait are as the
      environment, or the number of failures in a row, has it. */
  predicate Fits(p: Policy, script: seq<Round>, t: seq<Event>, e: Event) {
    var n := Attempts(t);
    match e
    case Started(number) =>
      && number == n + 1
      && (n > 0 ==>
            && t != [] && t[|t| - 1].TicketChecked?
            && !p.singleUse && (p.validUntil.Some? ==> t[|t| - 1].wall < p.validUntil.value))
    case Finished(end) =>
      && t != [] && t[|t| - 1] == Started(n)
      && 0 < n <= |script| && script[n - 1].Round? && end == script[n - 1].end
    case Waited(secs) =>
      && t != [] && t[|t| - 1].Finished? && Streak(t) <= 2
      && secs == if Streak(t) == 0 then 1 else if Streak(t) == 1 then 4 else 16
    case TicketChecked(wall) =>
      && t != [] && t[|t| - 1].Waited?
      && 0 < n <= |script| && script[n - 1].Round? && wall == script[n - 1].wallAfter
  }

  predicate AllFit(p: Policy, script: seq<Round>, t: seq<Event>) {
    t != [] ==> AllFit(p, script, t[..|t| - 1]) && Fits(p, script, t[..|t| - 1], t[|t| - 1])
  }

  /** How a run ends in round `r`, the first if `first`, with `streak` failures in a row. */
  function FateIn(p: Policy, first: bool, streak: nat, r: Round): Fate {
    if r.StoppedInAttempt? then Stopped
    else if first && !r.end.reachedSession then FirstFailed(r.end.ok)
    else if p.singleUse then GaveUp(Ticket(SingleUse), r.end.ok)
    else if p.validUntil.Some? && p.validUntil.value <= r.wall then
      GaveUp(Ticket(Expired(p.validUntil.value)), r.end.ok)
    else if streak == 3 then GaveUp(Exhausted, false)
    else if r.stoppedInWait then Stopped
    else if p.validUntil.Some? && p.validUntil.value <= r.wallAfter then
      GaveUp(Ticket(Expired(p.validUntil.value)), r.end.ok)
    else Running
  }

  /** Which event is the last of a run that ends in round `r`: its start, its result, its wait, or the
      ticket check. */
  predicate LastIn(p: Policy, first: bool, streak: nat, r: Round, last: Event) {
    if r.StoppedInAttempt? then last.Started?
    else if (first && !r.end.reachedSession) || !Usable(p, r.wall) || streak == 3 then last == Finished(r.end)
    else if r.stoppedInWait then last.Waited?
    else last == TicketChecked(r.wallAfter)
  }

  /** A run that has not ended has gone through the whole script; one that has, ended as the round of
      its last attempt says, which let it not go on. */
  predicate EndFits(p: Policy, script: seq<Round>, run: Run) {
    var n := Attempts(run.trace);
    && 1 <= n <= |script| + 1 && run.trace != []
    && var last, streak := run.trace[|run.trace| - 1], Streak(run.trace);
    && (n == |script| + 1 ==> run.fate == Running && last == Started(n))
    && (n <= |script| ==>
          && run.fate == FateIn(p, n == 1, streak, script[n - 1]) != Running
          && LastIn(p, n == 1, streak, script[n - 1], last))
  }

  lemma {:induction false} Push(p: Policy, script: seq<Round>, t: seq<Event>, e: Event)
    requires AllFit(p, script, t) && Fits(p, script, t, e)
    ensures AllFit(p, script, t + [e])
  {
    hide Fits;
    assert (t + [e])[..|t|] == t;
  }

  lemma {:induction false} PushMeasures(t: seq<Event>, e: Event)
    ensures Attempts(t + [e]) == Attempts(t) + if e.Started? then 1 else 0
    ensures Streak(t + [e])
            == if !e.Finished? then Streak(t) else if e.end.reachedSession then 0 else Streak(t) + 1
  {
    MeasuresConcat(t, [e]);
    MeasuresSingle(e);
    assert (t + [e])[..|t|] == t;
  }

  /** Where an attempt may start. */
  predicate ReadyFor(p: Policy, script: seq<Round>, t: seq<Event>, number: nat, failed: nat) {
    && AllFit(p, script, t) && Attempts(t) + 1 == number && Streak(t) == failed <= 2
    && (number > 1 ==> t != [] && t[|t| - 1].TicketChecked? && Usable(p, t[|t| - 1].wall))
  }

  lemma {:induction false} StartFits(p: Policy, script: seq<Round>, t: seq<Event>, number: nat, failed: nat)
    requires ReadyFor(p, script, t, number, failed)
    ensures var u := t + [Started(number)];
            AllFit(p, script, u) && Attempts(u) == number && Streak(u) == failed
  {
    Push(p, script, t, Started(number));
    PushMeasures(t, Started(number));
  }

  /** The events of one attempt, up to the retry decision. */
  lemma {:induction false} FinishFits(p: Policy, script: seq<Round>, t: seq<Event>, number: nat, failed: nat)
    requires ReadyFor(p, script, t, number, failed) && number <= |script| && script[number - 1].Round?
    ensures var end := script[number - 1].end;
            var u := t + [Started(number), Finished(end)];
            && AllFit(p, script, u) && Attempts(u) == number && u[|u| - 1] == Finished(end)
            && Streak(u) == (if end.reachedSession then 0 else failed + 1) <= 3
  {
    hide AllFit;
    var end := script[number - 1].end;
    StartFits(p, script, t, number, failed);
    var u := t + [Started(number)];
    Push(p, script, u, Finished(end));
    PushMeasures(u, Finished(end));
    assert u + [Finished(end)] == t + [Started(number), Finished(end)];
  }

  /** And from there to the ticket check. */
  lemma {:induction false} WaitFits(p: Policy, script: seq<Round>, u: seq<Event>, number: nat, secs: nat)
    requires AllFit(p, script, u) && Attempts(u) == number && 0 < number <= |script| && script[number - 1].Round?
    requires u != [] && u[|u| - 1].Finished? && Streak(u) <= 2
    requires secs == if Streak(u) == 0 then 1 else if Streak(u) == 1 then 4 else 16
    ensures var w, c := u + [Waited(secs)], u + [Waited(secs), TicketChecked(script[number - 1].wallAfter)];
            && AllFit(p, script, w) && Attempts(w) == number && Streak(w) == Streak(u)
            && AllFit(p, script, c) && Attempts(c) == number && Streak(c) == Streak(u)
  {
    hide AllFit;
    var w, check := u + [Waited(secs)], TicketChecked(script[number - 1].wallAfter);
    Push(p, script, u, Waited(secs));
    PushMeasures(u, Waited(secs));
    Push(p, script, w, check);
    PushMeasures(w, check);
    assert w + [check] == u + [Waited(secs), check];
  }

  /** What one turn does to a run that fits so far. */
  lemma {:induction false} TurnFits(p: Policy, script: seq<Round>, t: seq<Event>, number: nat, failed: nat)
    requires ReadyFor(p, script, t, number, failed) && number <= |script|
    ensures var turn := TurnOf(p, number, failed, script[number - 1]);
            && (turn.GoesOn? ==> ReadyFor(p, script, t + turn.events, number + 1, turn.failed))
            && (turn.Ends? ==>
                  AllFit(p, script, t + turn.events) && EndFits(p, script, Run(t + turn.events, turn.fate)))
  {
    hide AllFit, Attempts, Streak, ForbidRetry;
    var r := script[number - 1];
    StartFits(p, script, t, number, failed);
    if r.Round? {
      FinishFits(p, script, t, number, failed);
      ForbiddenIff(p, r.wall);
      ForbiddenIff(p, r.wallAfter);
      var u := t + [Started(number), Finished(r.end)];
      if Streak(u) <= 2 {
        var secs := if Streak(u) == 0 then 1 else if Streak(u) == 1 then 4 else 16;
        WaitFits(p, script, u, number, secs);
        assert u + [Waited(secs)] == t + [Started(number), Finished(r.end), Waited(secs)];
        assert u + [Waited(secs), TicketChecked(r.wallAfter)]
            == t + [Started(number), Finished(r.end), Waited(secs), TicketChecked(r.wallAfter)];
      }
    }
  }

  lemma {:induction false} RunFits(p: Policy, script: seq<Round>, t: seq<Event>, number: nat, failed: nat)
    requires 1 <= number <= |script| + 1 && ReadyFor(p, script, t, number, failed)
    ensures var rest := RunFrom(p, number, failed, script[number - 1..]);
            AllFit(p, script, t + rest.trace) && EndFits(p, script, Run(t + rest.trace, rest.fate))
    decreases |script| + 1 - number
  {
    hide AllFit, TurnOf, Attempts, Streak, FateIn;
    if number == |script| + 1 {
      hide ReadyFor;
      StartFits(p, script, t, number, failed);
    } else {
      var rest := script[number - 1..];
      assert rest[0] == script[number - 1] && rest[1..] == script[number..];
      TurnFits(p, script, t, number, failed);
      var turn := TurnOf(p, number, failed, rest[0]);
      if turn.GoesOn? {
        RunFits(p, script, t + turn.events, number + 1, turn.failed);
        var more := RunFrom(p, number + 1, turn.failed, rest[1..]).trace;
        assert t + turn.events + more == t + (turn.events + more);
      }
    }
  }

  /** Over every run: each event is what script and policy say it must be, and so is the end. */
  lemma {:induction false} EveryRunFits(p: Policy, script: seq<Round>)
    ensures var run := RunFrom(p, 1, 0, script);
            AllFit(p, script, run.trace) && EndFits(p, script, run)
  {
    hide Fits, FateIn, RunFrom;
    RunFits(p, script, [], 1, 0);
    assert script[0..] == script;
    var run := RunFrom(p, 1, 0, script);
    assert [] + run.trace == run.trace;
  }

  /** So a ticket good for several attempts, and before its end at every time read, never ends a run. */
  lemma {:induction false} UsableTicketNeverEnds(p: Policy, script: seq<Round>)
    requires !p.singleUse
    requires forall r :: r in script && r.Round? && p.validUntil.Some? ==>
                           r.wall < p.validUntil.value && r.wallAfter < p.validUntil.value
    ensures var fate := RunFrom(p, 1, 0, script).fate; fate.GaveUp? ==> fate.why == Exhausted
  {
    hide RunFrom;
    EveryRunFits(p, script);
    var run := RunFrom(p, 1, 0, script);
    var n := Attempts(run.trace);
    if n <= |script| { assert script[n - 1] in script; }
  }

  /** And one that ends it as run out had run out at the last time read. */
  lemma {:induction false} ExpiredMeans(p: Policy, script: seq<Round>)
    ensures var run := RunFrom(p, 1, 0, script);
            run.fate.GaveUp? && run.fate.why.Ticket? && run.fate.why.block.Expired? ==>
              && !p.singleUse && p.validUntil == Some(run.fate.why.block.expiredAt)
              && 1 <= Attempts(run.trace) <= |script|
              && var r, last := script[Attempts(run.trace) - 1], run.trace[|run.trace| - 1];
              && r.Round? && run.fate.ok == r.end.ok
              && p.validUntil.value <= if last.TicketChecked? then last.wall else r.wall
  {
    hide RunFrom;
    EveryRunFits(p, script);
  }

  // ----- The bounds are reached

  const NO_TICKET := Policy(false, None)

  function Session(): Round {
    Round(AttemptEnd(true, true), 0, false, 0)
  }

  function Failure(): Round {
    Round(AttemptEnd(false, false), 0, false, 0)
  }

  /** `k` sessions, each lost and followed by as many failures as the budget allows. */
  function WorstCase(k: nat): seq<Round>
    requires 1 <= k
  {
    if k == 1 then [Session(), Failure(), Failure(), Failure()]
    else [Session(), Failure(), Failure()] + WorstCase(k - 1)
  }

  lemma {:induction false} OneRound(number: nat, failed: nat, r: Round, script: seq<Round>)
    requires 1 <= number && r.Round? && !r.stoppedInWait && FailedAfter(failed, r.end) <= 2
    requires number == 1 ==> r.end.reachedSession
    ensures var t := RunFrom(NO_TICKET, number, failed, [r] + script).trace;
            var failed' := FailedAfter(failed, r.end);
            var rest := RunFrom(NO_TICKET, number + 1, failed', script).trace;
            && Attempts(t) == 1 + Attempts(rest)
            && Sessions(t) == (if r.end.reachedSession then 1 else 0) + Sessions(rest)
            && Backoff(t) == RECONNECT_BACKOFF_SECS[failed'] + Backoff(rest)
  {
    var failed' := FailedAfter(failed, r.end);
    var turn := TurnOf(NO_TICKET, number, failed, r);
    assert turn.GoesOn? && turn.failed == failed';
    assert ([r] + script)[1..] == script;
    MeasuresWait(number, r.end, RECONNECT_BACKOFF_SECS[failed'], r.wallAfter);
    MeasuresConcat(turn.events, RunFrom(NO_TICKET, number + 1, failed', script).trace);
  }

  lemma {:induction false} ThreeRounds(number: nat, failed: nat, script: seq<Round>)
    requires 1 <= number
    ensures var t := RunFrom(NO_TICKET, number, failed, [Session(), Failure(), Failure()] + script).trace;
            var rest := RunFrom(NO_TICKET, number + 3, 2, script).trace;
            && Attempts(t) == 3 + Attempts(rest) && Sessions(t) == 1 + Sessions(rest)
            && Backoff(t) == 21 + Backoff(rest)
  {
    hide RunFrom, Attempts, Sessions, Backoff;
    var s2 := [Failure()] + script;
    var s1 := [Failure()] + s2;
    assert [Session(), Failure(), Failure()] + script == [Session()] + s1;
    OneRound(number, failed, Session(), s1);
    OneRound(number + 1, 0, Failure(), s2);
    OneRound(number + 2, 1, Failure(), script);
  }

  lemma {:induction false} LastFailure(number: nat)
    requires 2 <= number
    ensures var t := RunFrom(NO_TICKET, number, 2, [Failure()]).trace;
            Attempts(t) == 1 && Sessions(t) == 0 && Backoff(t) == 0
  {
    MeasuresHead(number, Failure().end);
  }

  lemma {:induction false} WorstCaseFrom(k: nat, number: nat, failed: nat)
    requires 1 <= k && 1 <= number
    ensures var t := RunFrom(NO_TICKET, number, failed, WorstCase(k)).trace;
            Sessions(t) == k && Attempts(t) == 3 * k + 1 && Backoff(t) == 21 * k
    decreases k
  {
    hide RunFrom, Attempts, Sessions, Backoff;
    if k == 1 {
      assert WorstCase(1) == [Session(), Failure(), Failure()] + [Failure()];
      ThreeRounds(number, failed, [Failure()]);
      LastFailure(number + 3);
    } else {
      ThreeRounds(number, failed, WorstCase(k - 1));
      WorstCaseFrom(k - 1, number + 3, 2);
    }
  }

  /** No smaller bounds would do: for every k some run has k sessions, 3k + 1 attempts and 21k
      seconds of backoff. */
  lemma {:induction false} SupervisorBoundsAreTight(k: nat)
    requires 1 <= k
    ensures var t := RunFrom(NO_TICKET, 1, 0, WorstCase(k)).trace;
            Sessions(t) == k && Attempts(t) == 3 * k + 1 && Backoff(t) == 21 * k
  {
    WorstCaseFrom(k, 1, 0);
  }
}
