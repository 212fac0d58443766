/**
 * What the loop gets on with: what handling one transaction leaves, that `last` keeps up
 * with everything handled, and that a connect or a sweep nothing interrupts reaches the head.
 */
module LogProgress {
  import opened Shared
  import opened LogIndexer

  // ---------------------------------------------------------------- one transaction

  /** `to` is where a mark that never goes back in slots stands once `p` is done. */
  ghost predicate MovesTo(slots: seq<nat>, from: Option<nat>, to: Option<nat>, p: nat)
    requires p < |slots| && (from.Some? ==> from.value < |slots|)
  {
    && to.Some? && to.value < |slots| && slots[to.value] >= slots[p]
    && (from.Some? ==> slots[to.value] >= slots[from.value])
    && (to == Some(p) || (to == from && slots[p] < slots[to.value]))
  }

  /** The whole of what handling `p`, not seen lately, leaves; `ok` says whether it returned. */
  ghost predicate Leaves(s: State, t: State, p: nat, outcome: Outcome, ok: bool)
    requires InHistory(s) && p < |s.slots|
  {
    var sunk := outcome.Stored? || (outcome.SinkThrew? && outcome.committed);
    && t == s.(stored := t.stored, reported := t.reported, cursor := t.cursor, last := t.last, recent := t.recent)
    && ok == (outcome.Stored? || outcome.Skipped?)
    && t.stored == (if sunk then s.stored + {p} else s.stored)
    && t.reported == (if outcome.Skipped? then s.reported + {p} else s.reported)
    && (if sunk then MovesTo(s.slots, s.cursor, t.cursor, p) else t.cursor == s.cursor)
    && (if ok then MovesTo(s.slots, s.last, t.last, p) && p in t.recent else t.last == s.last && t.recent == s.recent)
  }

  /** One handled already changes nothing; any other leaves what it should. */
  lemma {:induction false} HandleLeaves(s: State, p: nat, outcome: Outcome)
    requires InHistory(s) && p < |s.slots|
    ensures var (t, ok) := Handle(s, p, outcome);
            if p in s.recent then t == s && ok else Leaves(s, t, p, outcome, ok)
  {
  }

  /** The newest that many: what is not among them was added before all of them. */
  function AddAll(recent: seq<nat>, added: seq<nat>): seq<nat>
    decreases |added|
  {
    if added == [] then recent else RecentAdd(AddAll(recent, added[..|added| - 1]), added[|added| - 1])
  }

  function Last5000(s: seq<nat>): seq<nat> {
    if |s| <= 5000 then s else s[|s| - 5000..]
  }

  /** The recent signatures are the last 5000 of those handled. */
  lemma {:induction false} RecentAreTheNewest(added: seq<nat>)
    requires forall i, j :: 0 <= i < j < |added| ==> added[i] != added[j]
    ensures AddAll([], added) == Last5000(added)
    decreases |added|
  {
    if added != [] {
      var n := |added| - 1;
      RecentAreTheNewest(added[..n]);
      OneMoreIsNewest(added);
      hide RecentAdd, Last5000;
    } else {
      assert AddAll([], added) == [];
    }
  }

  lemma {:induction false} OneMoreIsNewest(added: seq<nat>)
    requires added != [] && forall i, j :: 0 <= i < j < |added| ==> added[i] != added[j]
    ensures RecentAdd(Last5000(added[..|added| - 1]), added[|added| - 1]) == Last5000(added)
  {
    var n := |added| - 1;
    var before := Last5000(added[..n]);
    assert forall i :: 0 <= i < |before| ==> before[i] == added[n - |before| + i];
    NewIsAdded(before, added[n]);
    hide RecentAdd;
  }

  lemma {:induction false} NewIsAdded(recent: seq<nat>, p: nat)
    requires p !in recent && |recent| <= 5000
    ensures RecentAdd(recent, p) == if |recent| < 5000 then recent + [p] else recent[1..] + [p]
  {
  }

  // ---------------------------------------------------------------- `last` keeps up

  /** The mark is at or past the slot of `p`. */
  predicate AtOrPast(slots: seq<nat>, mark: Option<nat>, p: nat)
    requires p < |slots| && (mark.Some? ==> mark.value < |slots|)
  {
    mark.Some? && slots[mark.value] >= slots[p]
  }

  /** `last` has passed what was handled lately, the stored cursor whatever was ever stored. */
  ghost predicate KeepsUp(s: State) {
    && InHistory(s)
    && (forall p :: p in s.recent ==> p < |s.slots| && AtOrPast(s.slots, s.last, p))
    && (forall p :: p in s.stored ==> p < |s.slots| && AtOrPast(s.slots, s.cursor, p))
  }

  lemma {:induction false} HandleKeepsUp(s: State, p: nat, outcome: Outcome)
    requires KeepsUp(s) && p < |s.slots|
    ensures KeepsUp(Handle(s, p, outcome).0)
    ensures Handle(s, p, outcome).1 ==> AtOrPast(s.slots, Handle(s, p, outcome).0.last, p)
  {
  }

  lemma {:induction false} StepKeepsUp(s: State, e: Event)
    requires KeepsUp(s)
    ensures KeepsUp(Step(s, e))
  {
    var q := HandledBy(s, e);
    if q.Some? {
      HandleKeepsUp(s, q.value, e.outcome);
      hide Handle;
    }
  }

  lemma {:induction false} RunKeepsUp(s: State, es: seq<Event>)
    requires KeepsUp(s)
    ensures KeepsUp(Run(s, es))
    decreases |es|
  {
    if es != [] {
      StepKeepsUp(s, es[0]);
      hide Step;
      RunKeepsUp(Step(s, es[0]), es[1..]);
    }
  }

  lemma {:induction false} StepKeepsLast(s: State, e: Event, p: nat)
    requires InHistory(s) && e != Crash && p < |s.slots| && AtOrPast(s.slots, s.last, p)
    ensures p < |Step(s, e).slots| && AtOrPast(Step(s, e).slots, Step(s, e).last, p)
  {
    var q := HandledBy(s, e);
    if q.Some? {
      HandleLeaves(s, q.value, e.outcome);
      hide Handle;
    }
  }

  lemma {:induction false} RunKeepsLast(s: State, es: seq<Event>, p: nat)
    requires InHistory(s) && Crash !in es && p < |s.slots| && AtOrPast(s.slots, s.last, p)
    ensures p < |Run(s, es).slots| && AtOrPast(Run(s, es).slots, Run(s, es).last, p)
    decreases |es|
  {
    if es != [] {
      StepKeepsLast(s, es[0], p);
      hide Step;
      RunKeepsLast(Step(s, es[0]), es[1..], p);
    }
  }

  /** The step handles `p`, and handling it returned. */
  predicate Finishes(s: State, e: Event, p: nat) {
    HandledBy(s, e) == Some(p) && (e.ReplayNext? || e.Deliver?)
    && (p in s.recent || e.outcome.Stored? || e.outcome.Skipped?)
  }

  lemma {:induction false} FinishedIsPassed(s: State, e: Event, p: nat)
    requires KeepsUp(s) && Finishes(s, e, p)
    ensures p < |Step(s, e).slots| && AtOrPast(Step(s, e).slots, Step(s, e).last, p)
  {
    HandleKeepsUp(s, p, e.outcome);
    HandleLeaves(s, p, e.outcome);
    hide Handle;
  }

  /**
   * `last` keeps up in every run: once a transaction is handled, by the replay or the
   * stream, `last` is at or past its slot until the process dies, so no later catch-up or
   * sweep starts before it. A new process starts at or past everything ever stored.
   */
  lemma {:induction false} LastKeepsUp(es: seq<Event>, i: nat, p: nat)
    requires i < |es|
    ensures var s := Run(Init(), es[..i]);
            Finishes(s, es[i], p) && Crash !in es[i + 1..] ==>
              var t := Run(Init(), es);
              p < |t.slots| && t.last.Some? && t.last.value < |t.slots| && t.slots[t.last.value] >= t.slots[p]
    ensures var t := Run(Init(), es);
            forall q :: q in t.stored ==>
              && q < |t.slots| && t.cursor.Some? && t.cursor.value < |t.slots| && t.slots[t.cursor.value] >= t.slots[q]
              && Step(t, Crash).last == t.cursor
  {
    var s := Run(Init(), es[..i]);
    RunKeepsUp(Init(), es);
    RunKeepsUp(Init(), es[..i]);
    assert es == es[..i] + ([es[i]] + es[i + 1..]);
    RunAppend(Init(), es[..i], [es[i]] + es[i + 1..]);
    assert ([es[i]] + es[i + 1..])[1..] == es[i + 1..];
    if Finishes(s, es[i], p) && Crash !in es[i + 1..] {
      FinishedIsPassed(s, es[i], p);
      RunKeepsLast(Step(s, es[i]), es[i + 1..], p);
    }
  }

  // ---------------------------------------------------------------- nothing interrupts

  function AllStored(n: nat): seq<Event> {
    seq(n, _ => ReplayNext(Stored))
  }

  /** From `s` to `t` the replay went on: what it passed is stored, or was handled lately, and `last` is past it. */
  ghost predicate Replayed(s: State, t: State) {
    && InHistory(s) && InHistory(t) && s.task.Replaying? && t.task.Replaying? && s.task.next <= t.task.next
    && t == s.(stored := t.stored, cursor := t.cursor, last := t.last, recent := t.recent,
               task := s.task.(next := t.task.next))
    && s.stored <= t.stored && (forall p :: p in t.recent && p !in s.recent ==> p in t.stored)
    && (s.last.Some? ==> AtOrPast(s.slots, t.last, s.last.value))
    && forall p :: s.task.next <= p < t.task.next ==> (p in t.stored || p in s.recent) && AtOrPast(s.slots, t.last, p)
  }

  lemma {:induction false} ReplayedOn(a: State, b: State, c: State)
    requires Replayed(a, b) && Replayed(b, c)
    ensures Replayed(a, c)
  {
    forall p | a.task.next <= p < c.task.next
      ensures (p in c.stored || p in a.recent) && AtOrPast(a.slots, c.last, p)
    {
      if p < b.task.next {
        assert AtOrPast(a.slots, b.last, p) && AtOrPast(b.slots, c.last, b.last.value);
      } else {
        assert p in c.stored || p in b.recent;
      }
    }
  }

  lemma {:induction false} OneReplay(s: State)
    requires KeepsUp(s) && s.task.Replaying? && s.task.next < s.task.end
    ensures var t := Step(s, ReplayNext(Stored));
            KeepsUp(t) && Replayed(s, t) && t.task.next == s.task.next + 1
  {
    HandleLeaves(s, s.task.next, Stored);
    HandleKeepsUp(s, s.task.next, Stored);
    StepKeepsUp(s, ReplayNext(Stored));
    OnlyAdds(s, s.task.next);
    hide Handle;
  }

  lemma {:induction false} OnlyAdds(s: State, p: nat)
    requires InHistory(s) && p < |s.slots|
    ensures forall q :: q in Handle(s, p, Stored).0.recent ==> q in s.recent || q == p
  {
  }

  /** A replay nothing interrupts goes on to its end. */
  lemma {:induction false} ReplaysReachTheEnd(s: State)
    requires KeepsUp(s) && s.task.Replaying?
    ensures var t := Run(s, AllStored(s.task.end - s.task.next));
            KeepsUp(t) && Replayed(s, t) && t.task.next == s.task.end
    decreases s.task.end - s.task.next
  {
    var n := s.task.end - s.task.next;
    if n > 0 {
      OneReplay(s);
      FirstOfReplays(s, n);
      var next := Step(s, ReplayNext(Stored));
      assert next.task.end == s.task.end;
      hide Step, Run, AllStored, KeepsUp, InHistory;
      ReplaysReachTheEnd(next);
      ReplayedOn(s, next, Run(next, AllStored(n - 1)));
    } else {
      assert Run(s, AllStored(0)) == s;
    }
  }

  lemma {:induction false} FirstOfReplays(s: State, n: nat)
    requires InHistory(s) && n > 0
    ensures Run(s, AllStored(n)) == Run(Step(s, ReplayNext(Stored)), AllStored(n - 1))
  {
    hide Step;
    assert AllStored(n)[0] == ReplayNext(Stored) && AllStored(n)[1..] == AllStored(n - 1);
  }

  /**
   * A connect nothing interrupts: from `last` at most ten pages behind, whatever lies
   * after it is stored - or was given up before - when the stream is followed, `last` is
   * past all of it, and the stream is followed from the head.
   */
  lemma {:induction false} ConnectReachesTheHead(s: State)
    requires KeepsUp(s) && RecentAccounted(s) && s.conn == Down && s.task == NoTask && s.last.Some?
    requires |s.slots| <= s.last.value + 1 + 10_000
    ensures var n := |s.slots| - 1 - s.last.value;
            var t := Run(s, [Anchor, Subscribe, CatchUpRead] + AllStored(n) + [GoLive]);
            && t.conn == Live(|s.slots|) && t.task == NoTask && t.slots == s.slots && t.reported == s.reported
            && forall p: nat :: s.last.value < p < |s.slots| ==> (p in t.stored || p in s.reported) && AtOrPast(t.slots, t.last, p)
  {
    var n := |s.slots| - 1 - s.last.value;
    var c := s.(conn := Opened(|s.slots|), task := Replaying(s.last.value + 1, |s.slots|, false));
    ConnectBegins(s);
    hide Step;
    ReplaysReachTheEnd(c);
    var d := Run(c, AllStored(n));
    GoesLive(d);
    RunAppend(s, [Anchor, Subscribe, CatchUpRead] + AllStored(n), [GoLive]);
    RunAppend(s, [Anchor, Subscribe, CatchUpRead], AllStored(n));
  }

  lemma {:induction false} ConnectBegins(s: State)
    requires InHistory(s) && s.conn == Down && s.task == NoTask && s.last.Some?
    requires |s.slots| <= s.last.value + 1 + 10_000
    ensures Run(s, [Anchor, Subscribe, CatchUpRead])
            == s.(conn := Opened(|s.slots|), task := Replaying(s.last.value + 1, |s.slots|, false))
  {
    var a := Step(s, Anchor);
    var b := Step(a, Subscribe);
    var c := Step(b, CatchUpRead);
    assert Between(s.last.value, s.last.value + 1) == {};
    assert c == s.(conn := Opened(|s.slots|), task := Replaying(s.last.value + 1, |s.slots|, false));
    hide Step;
    assert [Anchor, Subscribe, CatchUpRead][1..] == [Subscribe, CatchUpRead] && [Subscribe, CatchUpRead][1..] == [CatchUpRead];
    assert Run(b, [CatchUpRead]) == Run(c, []);
  }

  lemma {:induction false} GoesLive(s: State)
    requires InHistory(s) && s.conn.Opened? && s.last.Some?
    requires s.task.Replaying? && !s.task.sweep && s.task.next == s.task.end
    ensures Run(s, [GoLive]) == s.(conn := Live(s.conn.next), task := NoTask)
  {
    assert Run(s, [GoLive]) == Run(Step(s, GoLive), []);
  }

  /** A sweep nothing interrupts: whatever landed after the point it was queued with is stored, or was given up before. */
  lemma {:induction false} SweepReachesTheHead(s: State)
    requires KeepsUp(s) && RecentAccounted(s) && s.conn.Live? && s.task == NoTask && s.queued.Some?
    requires |s.slots| <= s.queued.value + 1 + 10_000
    ensures var n := |s.slots| - 1 - s.queued.value;
            var t := Run(s, [SweepRead] + AllStored(n) + [EndSweep]);
            && t.conn == s.conn && t.task == NoTask && t.queued == None && t.slots == s.slots && t.reported == s.reported
            && forall p: nat :: s.queued.value < p < |s.slots| ==> (p in t.stored || p in s.reported) && AtOrPast(t.slots, t.last, p)
  {
    var n := |s.slots| - 1 - s.queued.value;
    var c := s.(queued := None, task := Replaying(s.queued.value + 1, |s.slots|, true));
    SweepBegins(s);
    hide Step;
    ReplaysReachTheEnd(c);
    SweepEnds(Run(c, AllStored(n)));
    RunAppend(s, [SweepRead] + AllStored(n), [EndSweep]);
    RunAppend(s, [SweepRead], AllStored(n));
  }

  lemma {:induction false} SweepBegins(s: State)
    requires InHistory(s) && s.conn.Live? && s.task == NoTask && s.queued.Some?
    requires |s.slots| <= s.queued.value + 1 + 10_000
    ensures Run(s, [SweepRead]) == s.(queued := None, task := Replaying(s.queued.value + 1, |s.slots|, true))
  {
    assert Between(s.queued.value, s.queued.value + 1) == {};
    assert Run(s, [SweepRead]) == Run(Step(s, SweepRead), []);
  }

  lemma {:induction false} SweepEnds(s: State)
    requires InHistory(s) && s.task.Replaying? && s.task.sweep && s.task.next == s.task.end
    ensures Run(s, [EndSweep]) == s.(task := NoTask)
  {
    assert Run(s, [EndSweep]) == Run(Step(s, EndSweep), []);
  }

  /** A sweep is queued from where the process stands, and does as much. */
  lemma {:induction false} SweepsFromLast(s: State)
    requires KeepsUp(s) && RecentAccounted(s) && s.conn.Live? && s.task == NoTask && s.queued.None? && s.last.Some?
    requires |s.slots| <= s.last.value + 1 + 10_000
    ensures var n := |s.slots| - 1 - s.last.value;
            var t := Run(s, [QueueSweep] + ([SweepRead] + AllStored(n) + [EndSweep]));
            t.slots == s.slots
            && forall p: nat :: s.last.value < p < |s.slots| ==> (p in t.stored || p in s.reported) && AtOrPast(t.slots, t.last, p)
  {
    var n := |s.slots| - 1 - s.last.value;
    var queued := s.(queued := s.last);
    assert Step(s, QueueSweep) == queued;
    hide Step;
    assert Run(s, [QueueSweep]) == Run(queued, []);
    RunAppend(s, [QueueSweep], [SweepRead] + AllStored(n) + [EndSweep]);
    SweepReachesTheHead(queued);
  }

  /** A transaction that throws ends the stream, and is read again by the connect after it. */
  lemma {:induction false} ThrownIsReadAgain(s: State, outcome: Outcome)
    requires KeepsUp(s) && RecentAccounted(s) && s.conn.Live? && s.task == NoTask && s.queued.None?
    requires s.conn.next < |s.slots| && s.conn.next !in s.recent && (outcome.ReadThrew? || outcome == SinkThrew(false))
    requires s.last.Some? && s.last.value < s.conn.next && |s.slots| <= s.last.value + 1 + 10_000
    ensures var n := |s.slots| - 1 - s.last.value;
            var t := Run(s, [Deliver(outcome), Reconnect] + ([Anchor, Subscribe, CatchUpRead] + AllStored(n) + [GoLive]));
            s.conn.next in t.stored || s.conn.next in s.reported
  {
    var n := |s.slots| - 1 - s.last.value;
    var ended, down := s.(conn := Closing), s.(conn := Down);
    assert Step(s, Deliver(outcome)) == ended && Step(ended, Reconnect) == down;
    hide Step;
    assert [Deliver(outcome), Reconnect][1..] == [Reconnect];
    assert Run(ended, [Reconnect]) == Run(down, []);
    assert Run(s, [Deliver(outcome), Reconnect]) == down;
    RunAppend(s, [Deliver(outcome), Reconnect], [Anchor, Subscribe, CatchUpRead] + AllStored(n) + [GoLive]);
    ConnectReachesTheHead(down);
  }

  /** A notification is stored - or was given up before - `last` passes it, and the stream goes on behind it. */
  lemma {:induction false} NotificationIsStored(s: State)
    requires KeepsUp(s) && RecentAccounted(s) && s.conn.Live? && s.task == NoTask && s.conn.next < |s.slots|
    ensures var t := Step(s, Deliver(Stored));
            && t.conn == Live(s.conn.next + 1) && (s.conn.next in t.stored || s.conn.next in s.reported)
            && AtOrPast(t.slots, t.last, s.conn.next)
  {
    HandleKeepsUp(s, s.conn.next, Stored);
    HandleLeaves(s, s.conn.next, Stored);
    hide Handle;
  }
}
