/**
 * The notifier's `run()`: calls that arrive while a pass runs are folded into one more
 * pass after it. Time is the number of events so far; a call is named by its moment.
 */
module SingleFlight {

  datatype Pass = Pass(begun: nat, ended: nat, succeeded: bool)

  datatype Settled = Settled(called: nat, at: nat)

  datatype State = State(now: nat, running: bool, again: bool, begun: nat, waiting: set<nat>,
                         passes: seq<Pass>, resolved: set<Settled>, rejected: set<Settled>)

  datatype Event = Call | Succeed | Fail

  function Initial(): State {
    State(0, false, false, 0, {}, [], {}, {})
  }

  function Settle(waiting: set<nat>, at: nat): set<Settled> {
    set called | called in waiting :: Settled(called, at)
  }

  /** Each event runs to the next `await`; a pass can only end while one runs. */
  function Step(s: State, e: Event): State {
    match e
    case Call =>
      var joined := s.(now := s.now + 1, waiting := s.waiting + {s.now});
      if s.running then joined.(again := true) else joined.(running := true, begun := s.now)
    case Succeed =>
      if !s.running then s
      else
        var ended := s.(now := s.now + 1, passes := s.passes + [Pass(s.begun, s.now, true)]);
        if s.again then ended.(again := false, begun := s.now)
        else ended.(running := false, waiting := {}, resolved := s.resolved + Settle(s.waiting, s.now))
    case Fail =>
      if !s.running then s
      else s.(now := s.now + 1, passes := s.passes + [Pass(s.begun, s.now, false)], running := false, waiting := {},
              rejected := s.rejected + Settle(s.waiting, s.now))
  }

  function Run(s: State, events: seq<Event>): State
    decreases |events|
  {
    if events == [] then s else Run(Step(s, events[0]), events[1..])
  }

  // ---------------------------------------------------------------- what every step keeps

  /** A whole successful pass lies between the call and its answer. */
  ghost predicate Covered(passes: seq<Pass>, r: Settled) {
    exists i :: 0 <= i < |passes| && passes[i].succeeded && r.called <= passes[i].begun && passes[i].ended <= r.at
  }

  ghost predicate Disjoint(passes: seq<Pass>) {
    && (forall i :: 0 <= i < |passes| ==> passes[i].begun < passes[i].ended)
    && forall i, j :: 0 <= i < j < |passes| ==> passes[i].ended <= passes[j].begun
  }

  ghost predicate Inv(s: State) {
    && (s.running ==> s.begun < s.now)
    && (!s.running ==> s.waiting == {})
    && (forall called :: called in s.waiting ==> called < s.now && (called <= s.begun || s.again))
    && Disjoint(s.passes)
    && (forall i :: 0 <= i < |s.passes| ==> s.passes[i].ended < s.now && (s.running ==> s.passes[i].ended <= s.begun))
    && (forall r :: r in s.resolved ==> Covered(s.passes, r))
  }

  lemma {:induction false} PassEndKeepsRecord(passes: seq<Pass>, p: Pass, resolved: set<Settled>)
    requires Disjoint(passes) && p.begun < p.ended && forall i :: 0 <= i < |passes| ==> passes[i].ended <= p.begun
    requires forall r :: r in resolved ==> Covered(passes, r)
    ensures Disjoint(passes + [p])
    ensures forall r :: r in resolved ==> Covered(passes + [p], r)
    ensures p.succeeded ==> forall r: Settled :: r.called <= p.begun && p.ended <= r.at ==> Covered(passes + [p], r)
  {
    var all := passes + [p];
    forall r | r in resolved ensures Covered(all, r) {
      var i :| 0 <= i < |passes| && passes[i].succeeded && r.called <= passes[i].begun && passes[i].ended <= r.at;
      assert all[i] == passes[i];
    }
    forall r: Settled | p.succeeded && r.called <= p.begun && p.ended <= r.at ensures Covered(all, r) {
      assert all[|passes|] == p;
    }
  }

  lemma {:induction false} StepKeepsInv(s: State, e: Event)
    requires Inv(s)
    ensures Inv(Step(s, e))
  {
    if !e.Call? && s.running {
      PassEndKeepsRecord(s.passes, Pass(s.begun, s.now, e.Succeed?), s.resolved);
      hide Disjoint, Covered;
    }
  }

  /**
   * In every interleaving of calls and pass ends: passes never overlap; each call that
   * resolved was followed by a whole successful pass begun no earlier than the call; and
   * nobody is left waiting once nothing runs.
   */
  lemma {:induction false} EveryResolvedCallHadItsPass(s: State, events: seq<Event>)
    requires Inv(s)
    ensures var t := Run(s, events);
            && Inv(t)
            && Disjoint(t.passes)
            && (forall r :: r in t.resolved ==> Covered(t.passes, r))
            && (t.waiting != {} ==> t.running)
    decreases |events|
  {
    hide Inv, Step;
    if events != [] {
      StepKeepsInv(s, events[0]);
      EveryResolvedCallHadItsPass(Step(s, events[0]), events[1..]);
    } else {
      assert Disjoint(s.passes) && (forall r :: r in s.resolved ==> Covered(s.passes, r)) && (s.waiting != {} ==> s.running) by {
        InvSays(s);
      }
    }
  }

  lemma {:induction false} InvSays(s: State)
    requires Inv(s)
    ensures Disjoint(s.passes) && (forall r :: r in s.resolved ==> Covered(s.passes, r)) && (s.waiting != {} ==> s.running)
  {
  }

  // ---------------------------------------------------------------- coalescing

  function Calls(events: seq<Event>): nat
    decreases |events|
  {
    if events == [] then 0 else (if events[0].Call? then 1 else 0) + Calls(events[1..])
  }

  /** Passes begun, or owed to the calls made so far. */
  function Begun(s: State): nat {
    |s.passes| + (if s.running then 1 else 0) + (if s.again then 1 else 0)
  }

  /** No call costs more than one pass, and a failed pass forgets none of them: `again` outlives it. */
  lemma {:induction false} NoMorePassesThanCalls(s: State, events: seq<Event>)
    ensures Begun(s) <= Begun(Run(s, events)) <= Begun(s) + Calls(events)
    decreases |events|
  {
    if events != [] { NoMorePassesThanCalls(Step(s, events[0]), events[1..]); }
  }

  /** The names of `count` calls made one after another. */
  function Moments(from: nat, count: nat): set<nat>
    decreases count
  {
    if count == 0 then {} else {from} + Moments(from + 1, count - 1)
  }

  /**
   * A burst of any size during a pass makes one more pass after it, and all of its calls
   * are answered when that one ends.
   */
  lemma {:induction false} BurstMakesOneMorePass(s: State, burst: seq<Event>)
    requires s.running && burst != [] && forall i :: 0 <= i < |burst| ==> burst[i] == Call
    ensures var t := Run(s, burst + [Succeed, Succeed]);
            && !t.running && !t.again && |t.passes| == |s.passes| + 2
            && forall m :: m in Moments(s.now, |burst|) ==>
                 Settled(m, t.passes[|t.passes| - 1].ended) in t.resolved
  {
    var u := Run(s, burst);
    BurstOnlyWaits(s, burst);
    RunAppend(s, burst, [Succeed, Succeed]);
    var v := Step(u, Succeed);
    assert [Succeed, Succeed][1..] == [Succeed];
    assert Run(u, [Succeed, Succeed]) == Run(v, [Succeed]);
    assert Run(v, [Succeed]) == Run(Step(v, Succeed), []);
    var t := Step(v, Succeed);
    assert Moments(s.now, |burst|) <= v.waiting;
  }

  lemma {:induction false} BurstOnlyWaits(s: State, burst: seq<Event>)
    requires s.running && forall i :: 0 <= i < |burst| ==> burst[i] == Call
    ensures Run(s, burst)
            == s.(now := s.now + |burst|, again := s.again || burst != [],
                  waiting := s.waiting + Moments(s.now, |burst|))
    decreases |burst|
  {
    if burst != [] {
      var t := Step(s, Call);
      BurstOnlyWaits(t, burst[1..]);
      assert Moments(s.now, |burst|) == {s.now} + Moments(t.now, |burst| - 1);
      assert s.waiting + Moments(s.now, |burst|) == t.waiting + Moments(t.now, |burst| - 1);
    } else {
      assert Moments(s.now, 0) == {};
    }
  }

  lemma {:induction false} RunAppend(s: State, a: seq<Event>, b: seq<Event>)
    ensures Run(s, a + b) == Run(Run(s, a), b)
    decreases |a|
  {
    if a == [] {
      assert a + b == b;
    } else {
      assert (a + b)[1..] == a[1..] + b;
      RunAppend(Step(s, a[0]), a[1..], b);
    }
  }

  /** A pass that fails rejects its callers, and the extra pass they asked for is made by the next call. */
  lemma {:induction false} FailureKeepsTheExtraPass(s: State)
    requires Inv(s) && s.running && s.again
    ensures var t := Run(s, [Fail, Call, Succeed]);
            && t.running && |t.passes| == |s.passes| + 2
            && forall called :: called in s.waiting ==> Settled(called, s.now) in t.rejected
  {
    var a := Step(s, Fail);
    var b := Step(a, Call);
    var c := Step(b, Succeed);
    assert [Fail, Call, Succeed][1..] == [Call, Succeed] && [Call, Succeed][1..] == [Succeed];
    assert Run(s, [Fail, Call, Succeed]) == Run(a, [Call, Succeed]);
    assert Run(a, [Call, Succeed]) == Run(b, [Succeed]);
    assert Run(b, [Succeed]) == Run(c, []);
  }

  // ---------------------------------------------------------------- every call has its answer

  /** The moments of the calls among these events. */
  function Asked(s: State, events: seq<Event>): set<nat>
    decreases |events|
  {
    if events == [] then {}
    else (if events[0].Call? then {s.now} else {}) + Asked(Step(s, events[0]), events[1..])
  }

  predicate AnsweredIn(settled: set<Settled>, called: nat) {
    exists r :: r in settled && r.called == called
  }

  /** A rejection is the failure of a pass that ended after the call. */
  ghost predicate FailedIn(passes: seq<Pass>, r: Settled) {
    exists i :: 0 <= i < |passes| && !passes[i].succeeded && passes[i].ended == r.at && r.called < r.at
  }

  /** Each call asked is waiting, resolved or rejected, and only one of the three. */
  ghost predicate Ledger(s: State, asked: set<nat>) {
    && (forall m :: m in asked <==> m in s.waiting || AnsweredIn(s.resolved, m) || AnsweredIn(s.rejected, m))
    && (forall m :: m in asked ==> m < s.now)
    && (forall m :: m in s.waiting ==> !AnsweredIn(s.resolved, m) && !AnsweredIn(s.rejected, m))
    && (forall m :: !(AnsweredIn(s.resolved, m) && AnsweredIn(s.rejected, m)))
    && (forall r :: r in s.rejected ==> FailedIn(s.passes, r))
  }

  lemma {:induction false} CallIsEntered(s: State, asked: set<nat>)
    requires Ledger(s, asked)
    ensures Ledger(Step(s, Call), asked + {s.now})
  {
    assert s.now !in asked;
  }

  lemma {:induction false} SettleAnswers(settled: set<Settled>, waiting: set<nat>, at: nat)
    ensures forall m :: AnsweredIn(settled + Settle(waiting, at), m) <==> AnsweredIn(settled, m) || m in waiting
  {
    forall m ensures AnsweredIn(settled + Settle(waiting, at), m) <==> AnsweredIn(settled, m) || m in waiting {
      if m in waiting { assert Settled(m, at) in Settle(waiting, at); }
    }
  }

  lemma {:induction false} RejectionsStay(s: State, p: Pass)
    requires forall r :: r in s.rejected ==> FailedIn(s.passes, r)
    ensures forall r :: r in s.rejected ==> FailedIn(s.passes + [p], r)
    ensures !p.succeeded && p.ended == s.now && (forall m :: m in s.waiting ==> m < s.now) ==>
              forall r :: r in Settle(s.waiting, s.now) ==> FailedIn(s.passes + [p], r)
  {
    var all := s.passes + [p];
    forall r | r in s.rejected ensures FailedIn(all, r) {
      var i :| 0 <= i < |s.passes| && !s.passes[i].succeeded && s.passes[i].ended == r.at && r.called < r.at;
      assert all[i] == s.passes[i];
    }
    assert all[|s.passes|] == p;
  }

  lemma {:induction false} EndKeepsLedger(s: State, asked: set<nat>, e: Event)
    requires Ledger(s, asked) && !e.Call?
    ensures Ledger(Step(s, e), asked)
  {
    if s.running {
      SettleAnswers(s.resolved, s.waiting, s.now);
      SettleAnswers(s.rejected, s.waiting, s.now);
      RejectionsStay(s, Pass(s.begun, s.now, e.Succeed?));
      hide AnsweredIn, FailedIn, Settle;
    }
  }

  lemma {:induction false} RunKeepsLedger(s: State, events: seq<Event>, asked: set<nat>)
    requires Ledger(s, asked)
    ensures Ledger(Run(s, events), asked + Asked(s, events))
    decreases |events|
  {
    hide Ledger, Step;
    if events == [] {
      assert asked + Asked(s, events) == asked;
    } else {
      var now := if events[0].Call? then asked + {s.now} else asked;
      if events[0].Call? { CallIsEntered(s, asked); } else { EndKeepsLedger(s, asked, events[0]); }
      RunKeepsLedger(Step(s, events[0]), events[1..], now);
      assert now + Asked(Step(s, events[0]), events[1..]) == asked + Asked(s, events);
    }
  }

  /**
   * Nobody is forgotten: at any moment each call made is waiting for a pass that runs, was
   * resolved, or was rejected by a pass that failed after it - and only one of these.
   */
  lemma {:induction false} EveryCallIsAnswered(events: seq<Event>)
    ensures var t := Run(Initial(), events);
            && Ledger(t, Asked(Initial(), events))
            && (!t.running ==> forall m :: m in Asked(Initial(), events) ==> AnsweredIn(t.resolved, m) || AnsweredIn(t.rejected, m))
  {
    assert Ledger(Initial(), {});
    RunKeepsLedger(Initial(), events, {});
    assert {} + Asked(Initial(), events) == Asked(Initial(), events);
    EveryResolvedCallHadItsPass(Initial(), events);
    hide Step, Run, Asked, AnsweredIn, FailedIn;
  }

  // ---------------------------------------------------------------- the two variables

  class Flight {
    var running: bool
    var again: bool
    ghost var record: State

    ghost predicate Valid()
      reads this
    {
      running == record.running && again == record.again && Inv(record)
    }

    constructor ()
      ensures Valid() && record == Initial()
    {
      running, again, record := false, false, Initial();
    }

    /** `run()`: the caller joins the promise that is there, or starts a pass at once. */
    method Join() returns (starts: bool)
      requires Valid()
      modifies this
      ensures Valid() && record == Step(old(record), Call) && starts == !old(running)
    {
      StepKeepsInv(record, Call);
      record := Step(record, Call);
      if running {
        again, starts := true, false;
      } else {
        running, starts := true, true;
      }
    }

    /** The rest of the asynchronous function after a pass; `another` when it goes round again. */
    method PassEnded(succeeded: bool) returns (another: bool)
      requires Valid() && running
      modifies this
      ensures Valid() && record == Step(old(record), if succeeded then Succeed else Fail)
      ensures another <==> succeeded && old(again)
      ensures !another ==> !running && record.waiting == {}
      ensures another ==> running && record.waiting == old(record.waiting)
      ensures !another ==> forall called :: called in old(record.waiting) ==>
                Settled(called, old(record.now)) in if succeeded then record.resolved else record.rejected
    {
      StepKeepsInv(record, if succeeded then Succeed else Fail);
      record := Step(record, if succeeded then Succeed else Fail);
      another := false;
      if succeeded && again {
        again, another := false, true;
      } else {
        running := false;
      }
    }
  }
}
