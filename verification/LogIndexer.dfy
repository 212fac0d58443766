/**
 * The indexer's log loop: anchor, subscribe, catch up, follow the stream, sweep,
 * reconnect, crash and restart from the stored cursor.
 *
 * A signature is unique, so a transaction is named by its place in the program's
 * history; `slots[p]` is the slot of the p-th one. One event is one stretch of
 * code between two awaits.
 */
module LogIndexer {
  import opened Shared

  /** One page of the node's history. */
  const CATCH_UP_PAGE: nat := 1000
  const CATCH_UP_MAX_PAGES: nat := 10
  const RECENT_CAPACITY: nat := 5000

  const CATCH_UP_DEPTH: nat := CATCH_UP_PAGE * CATCH_UP_MAX_PAGES

  // ---------------------------------------------------------------- state

  /** `next` is the first transaction the open stream has not delivered yet. */
  datatype Conn =
    | Down
    | Anchored
    | Opened(next: nat)
    | Live(next: nat)
    | Closing

  /** The transactions `next .. end` are still to be handled, oldest first. */
  datatype Task = NoTask | Replaying(next: nat, end: nat, sweep: bool)

  /**
   * `floor` is specification only: history up to it is before the starting point.
   * `stored`, `reported` and `cursor` survive a crash; the rest is the process.
   */
  datatype State = State(
    slots: seq<nat>,
    stored: set<nat>,
    reported: set<nat>,
    cursor: Option<nat>,
    last: Option<nat>,
    recent: seq<nat>,
    conn: Conn,
    task: Task,
    queued: Option<nat>,
    floor: int)

  /** What one `handle` meets outside the process. */
  datatype Outcome =
    | Stored
    | Skipped                       // given up, and said so in the log
    | ReadThrew
    | SinkThrew(committed: bool)    // the database may have committed before the error

  datatype Event =
    | Land(slot: nat)
    | Anchor
    | Subscribe
    | ConnectFails
    | CatchUpRead
    | ReplayNext(outcome: Outcome)
    | GoLive
    | Deliver(outcome: Outcome)
    | QueueSweep
    | SweepRead
    | SweepReadFails
    | EndSweep
    | Drop
    | Reconnect
    | Crash

  function Init(): State {
    State([], {}, {}, None, None, [], Down, NoTask, None, -1)
  }

  // ---------------------------------------------------------------- one transaction

  /** `RecentSignatures.add`: the newest `RECENT_CAPACITY` distinct signatures. */
  function RecentAdd(recent: seq<nat>, p: nat): (r: seq<nat>)
    ensures p in r
    ensures forall q :: q in r ==> q in recent || q == p
  {
    if p in recent then recent
    else if |recent| < RECENT_CAPACITY then recent + [p]
    else recent[1..] + [p]
  }

  /** Both `last` and the stored cursor move to `p` unless that goes back in slots. */
  function Forward(slots: seq<nat>, from: Option<nat>, p: nat): Option<nat>
    requires p < |slots|
    requires from.Some? ==> from.value < |slots|
  {
    if from.None? || slots[p] >= slots[from.value] then Some(p) else from
  }

  ghost predicate InHistory(s: State) {
    && -1 <= s.floor < |s.slots|
    && (s.last.Some? ==> s.last.value < |s.slots|)
    && (s.cursor.Some? ==> s.cursor.value < |s.slots|)
    && (s.queued.Some? ==> s.queued.value < |s.slots|)
    && (s.conn.Opened? || s.conn.Live? ==> s.conn.next <= |s.slots|)
    && (s.task.Replaying? ==> s.task.next <= s.task.end <= |s.slots|)
  }

  function Sink(s: State, p: nat): (t: State)
    requires p < |s.slots| && InHistory(s)
    ensures InHistory(t)
  {
    s.(stored := s.stored + {p}, cursor := Forward(s.slots, s.cursor, p))
  }

  function MarkHandled(s: State, p: nat): (t: State)
    requires p < |s.slots| && InHistory(s)
    ensures InHistory(t)
  {
    s.(recent := RecentAdd(s.recent, p), last := Forward(s.slots, s.last, p))
  }

  /** `handle`: the state afterwards, and whether it returned rather than threw. */
  function Handle(s: State, p: nat, outcome: Outcome): (r: (State, bool))
    requires p < |s.slots| && InHistory(s)
    ensures InHistory(r.0) && r.0.task == s.task && r.0.conn == s.conn && r.0.slots == s.slots
  {
    if p in s.recent then (s, true)
    else match outcome
      case Stored => (MarkHandled(Sink(s, p), p), true)
      case Skipped => (MarkHandled(s.(reported := s.reported + {p}), p), true)
      case ReadThrew => (s, false)
      case SinkThrew(committed) => (if committed then Sink(s, p) else s, false)
  }

  // ---------------------------------------------------------------- the machine

  /** The oldest transaction a catch-up from `from` reaches when the history is `head` long. */
  function Reach(from: nat, head: nat): nat {
    if head > from + 1 + CATCH_UP_DEPTH then head - CATCH_UP_DEPTH else from + 1
  }

  function Between(from: nat, to: nat): (r: set<nat>)
    ensures forall p: nat :: p in r <==> from < p < to
  {
    if to <= from + 1 then {} else Between(from, to - 1) + {to - 1}
  }

  /** Reads the pages after `from`; what is out of reach is named in the error log. */
  function ReadPages(s: State, from: nat, sweep: bool): (t: State)
    requires from < |s.slots| && InHistory(s)
    ensures InHistory(t)
  {
    var lo := Reach(from, |s.slots|);
    s.(reported := s.reported + Between(from, lo), task := Replaying(lo, |s.slots|, sweep))
  }

  /** The next transaction of a replay; one that fails ends a sweep, or drops the connection. */
  function Replay(s: State, outcome: Outcome): (t: State)
    requires InHistory(s) && s.task.Replaying? && s.task.next < s.task.end
    ensures InHistory(t)
  {
    var (t, ok) := Handle(s, s.task.next, outcome);
    if ok then t.(task := s.task.(next := s.task.next + 1))
    else if s.task.sweep then t.(task := NoTask)
    else t.(task := NoTask, conn := Down)
  }

  /** The next transaction of the stream; one that fails ends the stream. */
  function Receive(s: State, outcome: Outcome): (t: State)
    requires InHistory(s) && s.conn.Live? && s.conn.next < |s.slots|
    ensures InHistory(t)
  {
    var (t, ok) := Handle(s, s.conn.next, outcome);
    t.(conn := if ok then Live(s.conn.next + 1) else Closing)
  }

  /** An event whose guard does not hold changes nothing. */
  function Step(s: State, e: Event): (t: State)
    requires InHistory(s)
    ensures InHistory(t)
  {
    match e
    case Land(slot) =>
      if |s.slots| == 0 || slot >= s.slots[|s.slots| - 1] then s.(slots := s.slots + [slot]) else s
    case Anchor =>
      if s.conn != Down then s
      else if s.last.Some? || |s.slots| == 0 then s.(conn := Anchored)
      else s.(conn := Anchored, last := Some(|s.slots| - 1), floor := |s.slots| - 1)
    case Subscribe =>
      if s.conn != Anchored then s
      else s.(conn := Opened(|s.slots|), floor := if s.last.None? then |s.slots| - 1 else s.floor)
    case ConnectFails =>
      if s.conn == Anchored || (s.conn.Opened? && s.task == NoTask) then s.(conn := Down) else s
    case CatchUpRead =>
      if s.conn.Opened? && s.task == NoTask && s.last.Some?
      then ReadPages(s, s.last.value, false) else s
    case ReplayNext(outcome) =>
      if s.task.Replaying? && s.task.next < s.task.end then Replay(s, outcome) else s
    case GoLive =>
      if s.conn.Opened?
         && (if s.last.None? then s.task == NoTask
             else s.task.Replaying? && !s.task.sweep && s.task.next == s.task.end)
      then s.(conn := Live(s.conn.next), task := NoTask) else s
    case Deliver(outcome) =>
      if s.conn.Live? && s.task == NoTask && s.conn.next < |s.slots| then Receive(s, outcome) else s
    case QueueSweep =>
      if s.conn.Live? && s.queued.None? then s.(queued := s.last) else s
    case SweepRead =>
      if s.queued.Some? && s.task == NoTask && (s.conn.Live? || s.conn.Closing?)
      then ReadPages(s, s.queued.value, true).(queued := None) else s
    case SweepReadFails => s.(queued := None)
    case EndSweep =>
      if s.task.Replaying? && s.task.sweep && s.task.next == s.task.end then s.(task := NoTask) else s
    case Drop => if s.conn.Live? then s.(conn := Closing) else s
    case Reconnect =>
      if s.conn.Closing? && s.task == NoTask && s.queued.None? then s.(conn := Down) else s
    case Crash =>
      s.(last := s.cursor, recent := [], conn := Down, task := NoTask, queued := None)
  }

  // ---------------------------------------------------------------- the invariant

  predicate Accounted(s: State, p: nat) {
    p in s.stored || p in s.reported
  }

  /** Everything after the starting point and before `end` was stored or named in an error log. */
  ghost predicate AccountedTo(s: State, end: nat) {
    forall p: nat :: s.floor < p < end ==> p in s.stored || p in s.reported
  }

  predicate RecentAccounted(s: State) {
    forall p :: p in s.recent ==> Accounted(s, p)
  }

  ghost predicate Inv(s: State) {
    && InHistory(s)
    && RecentAccounted(s)
    && (s.last.Some? ==> AccountedTo(s, s.last.value + 1))
    && (s.cursor.Some? ==> AccountedTo(s, s.cursor.value + 1))
    && (s.queued.Some? ==> AccountedTo(s, s.queued.value + 1))
    && (s.conn.Live? ==> AccountedTo(s, s.conn.next))
    && (s.task.Replaying? ==>
          && AccountedTo(s, s.task.next)
          && (s.task.sweep ==> s.conn.Live? || s.conn.Closing?)
          && (!s.task.sweep ==> s.conn.Opened? && s.conn.next <= s.task.end && s.last.Some?))
    && (s.conn.Opened? && s.last.None? ==> AccountedTo(s, s.conn.next))
  }

  lemma {:induction false} HandleKeepsInv(s: State, p: nat, outcome: Outcome)
    requires Inv(s) && p < |s.slots| && AccountedTo(s, p)
    ensures var (t, ok) := Handle(s, p, outcome);
            && InHistory(t) && t.slots == s.slots && t.floor == s.floor
            && t.conn == s.conn && t.task == s.task && t.queued == s.queued
            && s.stored <= t.stored && s.reported <= t.reported
            && (s.last.Some? ==> t.last.Some?)
            && (ok ==> Accounted(t, p))
            && RecentAccounted(t)
            && (t.last.Some? ==> AccountedTo(t, t.last.value + 1))
            && (t.cursor.Some? ==> AccountedTo(t, t.cursor.value + 1))
  {
    var (t, ok) := Handle(s, p, outcome);
    assert AccountedTo(t, p);
    if p in s.recent {
    } else if outcome.Stored? || outcome.Skipped? {
      assert AccountedTo(t, p + 1);
      assert t.recent == RecentAdd(s.recent, p);
    } else if outcome == SinkThrew(true) {
      assert AccountedTo(t, p + 1);
    }
  }

  lemma {:induction false} ReadKeepsInv(s: State, e: Event)
    requires Inv(s) && (e.CatchUpRead? || e.SweepRead?)
    ensures Inv(Step(s, e))
  {
    var from := if e.CatchUpRead? then s.last else s.queued;
    if from.Some? {
      var t := ReadPages(s, from.value, e.SweepRead?);
      assert AccountedTo(t, t.task.next);
    }
  }

  lemma {:induction false} ReplayKeepsInv(s: State, outcome: Outcome)
    requires Inv(s)
    ensures Inv(Step(s, ReplayNext(outcome)))
  {
    if s.task.Replaying? && s.task.next < s.task.end {
      HandleKeepsInv(s, s.task.next, outcome);
      var (t, ok) := Handle(s, s.task.next, outcome);
      assert ok ==> AccountedTo(t, s.task.next + 1);
    }
  }

  lemma {:induction false} DeliverKeepsInv(s: State, outcome: Outcome)
    requires Inv(s)
    ensures Inv(Step(s, Deliver(outcome)))
  {
    if s.conn.Live? && s.task == NoTask && s.conn.next < |s.slots| {
      HandleKeepsInv(s, s.conn.next, outcome);
      var (t, ok) := Handle(s, s.conn.next, outcome);
      assert ok ==> AccountedTo(t, s.conn.next + 1);
    }
  }

  lemma {:induction false} OtherEventsKeepInv(s: State, e: Event)
    requires Inv(s) && !e.ReplayNext? && !e.Deliver? && !e.CatchUpRead? && !e.SweepRead?
    ensures Inv(Step(s, e))
  {
    hide Handle, Replay, Receive, ReadPages, Between;
    assert Step(s, e).slots == s.slots || e.Land?;
  }

  lemma {:induction false} StepKeepsInv(s: State, e: Event)
    requires Inv(s)
    ensures Inv(Step(s, e))
  {
    match e
    case ReplayNext(outcome) => ReplayKeepsInv(s, outcome);
    case Deliver(outcome) => DeliverKeepsInv(s, outcome);
    case CatchUpRead => ReadKeepsInv(s, e);
    case SweepRead => ReadKeepsInv(s, e);
    case _ => OtherEventsKeepInv(s, e);
    hide *;
  }

  // ---------------------------------------------------------------- whole runs

  function Run(s: State, es: seq<Event>): (t: State)
    requires InHistory(s)
    ensures InHistory(t)
    decreases |es|
  {
    if es == [] then s else Run(Step(s, es[0]), es[1..])
  }

  lemma {:induction false} RunKeepsInv(s: State, es: seq<Event>)
    requires Inv(s)
    ensures Inv(Run(s, es))
    decreases |es|
  {
    if es != [] {
      StepKeepsInv(s, es[0]);
      RunKeepsInv(Step(s, es[0]), es[1..]);
    }
  }

  /**
   * No silent gap: whatever connects, drops, sweeps, failures, crashes and restarts
   * a run holds, everything after the starting point and up to `last`, up to the
   * stored cursor, and (while live) up to what the stream delivered, was stored or
   * named in an error log.
   */
  lemma {:induction false} NoSilentGap(es: seq<Event>)
    ensures var s := Run(Init(), es);
            && (s.last.Some? ==>
                  forall p: nat :: s.floor < p <= s.last.value ==> p in s.stored || p in s.reported)
            && (s.cursor.Some? ==>
                  forall p: nat :: s.floor < p <= s.cursor.value ==> p in s.stored || p in s.reported)
            && (s.conn.Live? ==>
                  forall p: nat :: s.floor < p < s.conn.next ==> p in s.stored || p in s.reported)
  {
    RunKeepsInv(Init(), es);
  }

  /** A process that has seen nothing anchors, or subscribes, past transactions nobody handled. */
  predicate MovesStart(s: State, e: Event) {
    && s.last.None? && s.floor < |s.slots| - 1
    && ((e == Anchor && s.conn == Down) || (e == Subscribe && s.conn == Anchored))
  }

  lemma {:induction false} StepMovesStartIff(s: State, e: Event)
    requires Inv(s)
    ensures Step(s, e).floor != s.floor <==> MovesStart(s, e)
    ensures s.floor <= Step(s, e).floor
  {
  }

  lemma {:induction false} StartNeverGoesBack(s: State, es: seq<Event>)
    requires Inv(s)
    ensures s.floor <= Run(s, es).floor
    decreases |es|
  {
    if es != [] {
      StepKeepsInv(s, es[0]);
      StepMovesStartIff(s, es[0]);
      hide Step;
      StartNeverGoesBack(Step(s, es[0]), es[1..]);
    }
  }

  /** The starting point moves exactly at `MovesStart` steps; what that loses is said below. */
  lemma {:induction false} StartMovesIff(s: State, es: seq<Event>)
    requires Inv(s)
    ensures Run(s, es).floor != s.floor <==>
              exists i :: 0 <= i < |es| && MovesStart(Run(s, es[..i]), es[i])
    decreases |es|
  {
    if es != [] {
      var t, rest := Step(s, es[0]), es[1..];
      StepKeepsInv(s, es[0]);
      StepMovesStartIff(s, es[0]);
      hide Step, MovesStart, Inv, InHistory;
      StartMovesIff(t, rest);
      StartNeverGoesBack(t, rest);
      assert es[..0] == [] && Run(s, []) == s;
      forall i | 0 <= i < |rest|
        ensures es[i + 1] == rest[i] && Run(s, es[..i + 1]) == Run(t, rest[..i])
      {
        assert es[..i + 1][1..] == rest[..i];
      }
      if Run(s, es).floor != s.floor && !MovesStart(s, es[0]) {
        var i :| 0 <= i < |rest| && MovesStart(Run(t, rest[..i]), rest[i]);
        assert MovesStart(Run(s, es[..i + 1]), es[i + 1]);
      }
      if i :| 0 <= i < |es| && MovesStart(Run(s, es[..i]), es[i]) {
        if i > 0 { assert MovesStart(Run(t, rest[..i - 1]), rest[i - 1]); }
      }
    }
  }

  lemma {:induction false} StepKeepsAnchored(s: State, e: Event)
    requires Inv(s) && s.last.Some? && s.cursor.Some?
    ensures var t := Step(s, e); t.floor == s.floor && t.last.Some? && t.cursor.Some?
  {
  }

  /** Once a cursor is stored and the process holds a `last`, no crash or restart moves the start. */
  lemma {:induction false} AnchoredRunsKeepTheirStart(s: State, es: seq<Event>)
    requires Inv(s) && s.last.Some? && s.cursor.Some?
    ensures var t := Run(s, es); t.floor == s.floor && t.last.Some? && t.cursor.Some?
    decreases |es|
  {
    if es != [] {
      StepKeepsInv(s, es[0]);
      StepKeepsAnchored(s, es[0]);
      AnchoredRunsKeepTheirStart(Step(s, es[0]), es[1..]);
    }
  }

  // ---------------------------------------------------------------- what is lost without a word

  /** The step starts the process past `p`, which nobody has handled. */
  predicate Passes(s: State, e: Event, p: nat) {
    MovesStart(s, e) && s.floor < p < |s.slots| && !Accounted(s, p)
  }

  /** The process, or its stored cursor, counts `p` as behind it. */
  predicate CountedBehind(s: State, p: nat) {
    || (s.last.Some? && p <= s.last.value)
    || (s.cursor.Some? && p <= s.cursor.value)
    || (s.conn.Live? && p < s.conn.next)
  }

  lemma {:induction false} HandleForgetsNothing(s: State, q: nat, outcome: Outcome)
    requires InHistory(s) && q < |s.slots|
    ensures var t := Handle(s, q, outcome).0; s.stored <= t.stored && s.reported <= t.reported
  {
  }

  lemma {:induction false} NothingForgotten(s: State, e: Event)
    requires InHistory(s)
    ensures s.stored <= Step(s, e).stored && s.reported <= Step(s, e).reported
  {
    var q := HandledBy(s, e);
    if q.Some? {
      HandleForgetsNothing(s, q.value, e.outcome);
      hide Handle, InHistory;
    }
  }

  lemma {:induction false} PassedWhenFloorMoves(s: State, es: seq<Event>, p: nat)
    requires Inv(s) && s.floor < p <= Run(s, es).floor && !Accounted(Run(s, es), p)
    ensures exists i :: 0 <= i < |es| && Passes(Run(s, es[..i]), es[i], p)
    decreases |es|
  {
    var t, rest := Step(s, es[0]), es[1..];
    StepKeepsInv(s, es[0]);
    StepMovesStartIff(s, es[0]);
    AccountedStays(s, es, p);
    assert es[..0] == [] && Run(s, []) == s;
    if p <= t.floor {
      FloorIsInHistory(s, es[0]);
      assert Passes(Run(s, es[..0]), es[0], p);
    } else {
      hide Step, MovesStart, Inv, InHistory;
      PassedWhenFloorMoves(t, rest, p);
      var i :| 0 <= i < |rest| && Passes(Run(t, rest[..i]), rest[i], p);
      RunFirst(s, es, i);
      assert Passes(Run(s, es[..i + 1]), es[i + 1], p);
    }
  }

  lemma {:induction false} FloorIsInHistory(s: State, e: Event)
    requires InHistory(s) && MovesStart(s, e)
    ensures Step(s, e).floor == |s.slots| - 1
  {
  }

  lemma {:induction false} RunFirst(s: State, es: seq<Event>, i: nat)
    requires InHistory(s) && i < |es| - 1
    ensures Run(s, es[..i + 1]) == Run(Step(s, es[0]), es[1..][..i]) && es[i + 1] == es[1..][i]
  {
    assert es[..i + 1][1..] == es[1..][..i];
  }

  lemma {:induction false} AccountedStays(s: State, es: seq<Event>, p: nat)
    requires InHistory(s) && !Accounted(Run(s, es), p)
    ensures !Accounted(s, p)
    decreases |es|
  {
    if es != [] {
      NothingForgotten(s, es[0]);
      hide Step;
      AccountedStays(Step(s, es[0]), es[1..], p);
    }
  }

  /**
   * Whatever is behind a run and was neither stored nor reported was passed, unhandled, by
   * a step that started past it - and, if it landed after the process first anchored, by a
   * second start.
   */
  lemma {:induction false} LostWasPassed(es: seq<Event>, p: nat)
    requires CountedBehind(Run(Init(), es), p) && !Accounted(Run(Init(), es), p)
    ensures exists i :: 0 <= i < |es| && Passes(Run(Init(), es[..i]), es[i], p)
    ensures forall a, i :: 0 <= a < |es| && 0 <= i < |es| && |Run(Init(), es[..a]).slots| <= p ==>
              (Passes(Run(Init(), es[..i]), es[i], p) ==> a < i)
  {
    RunKeepsInv(Init(), es);
    PassedWhenFloorMoves(Init(), es, p);
    forall a, i | 0 <= a < |es| && 0 <= i < |es| && |Run(Init(), es[..a]).slots| <= p
      ensures Passes(Run(Init(), es[..i]), es[i], p) ==> a < i
    {
      if i <= a {
        assert es[..a] == es[..i] + es[i..a];
        RunAppend(Init(), es[..i], es[i..a]);
        HistoryOnlyGrows(Run(Init(), es[..i]), es[i..a]);
      }
    }
  }

  /** Nothing the process holds or has stored points before `b` any more: nobody will handle it or what is older. */
  ghost predicate Behind(s: State, b: nat) {
    && InHistory(s) && b < |s.slots|
    && (s.last.Some? ==> b <= s.last.value)
    && (s.cursor.Some? ==> b <= s.cursor.value)
    && (s.queued.Some? ==> b <= s.queued.value)
    && (s.conn.Opened? || s.conn.Live? ==> b < s.conn.next)
    && (s.task.Replaying? ==> b < s.task.next)
  }

  ghost predicate SameUpTo(s: State, t: State, b: nat) {
    forall p: nat :: p <= b ==> (Accounted(t, p) <==> Accounted(s, p))
  }

  lemma {:induction false} HandleStaysBehind(s: State, p: nat, outcome: Outcome, b: nat)
    requires Behind(s, b) && b < p < |s.slots|
    ensures var t := Handle(s, p, outcome).0;
            && SameUpTo(s, t, b) && t.queued == s.queued
            && (t.last.Some? ==> b <= t.last.value) && (t.cursor.Some? ==> b <= t.cursor.value)
  {
  }

  lemma {:induction false} ReplayStaysBehind(s: State, outcome: Outcome, b: nat)
    requires Behind(s, b) && s.task.Replaying? && s.task.next < s.task.end
    ensures Behind(Replay(s, outcome), b) && SameUpTo(s, Replay(s, outcome), b)
  {
    HandleStaysBehind(s, s.task.next, outcome, b);
    var t := Handle(s, s.task.next, outcome).0;
    hide Handle, InHistory;
    assert SameUpTo(s, t, b);
  }

  lemma {:induction false} ReceiveStaysBehind(s: State, outcome: Outcome, b: nat)
    requires Behind(s, b) && s.conn.Live? && s.task == NoTask && s.conn.next < |s.slots|
    ensures Behind(Receive(s, outcome), b) && SameUpTo(s, Receive(s, outcome), b)
  {
    HandleStaysBehind(s, s.conn.next, outcome, b);
    var t := Handle(s, s.conn.next, outcome).0;
    hide Handle, InHistory;
    assert SameUpTo(s, t, b);
  }

  lemma {:induction false} ReadStaysBehind(s: State, from: nat, sweep: bool, b: nat)
    requires Behind(s, b) && b <= from < |s.slots|
    ensures Behind(ReadPages(s, from, sweep), b) && SameUpTo(s, ReadPages(s, from, sweep), b)
  {
  }

  lemma {:induction false} StepStaysBehind(s: State, e: Event, b: nat)
    requires Behind(s, b)
    ensures Behind(Step(s, e), b) && SameUpTo(s, Step(s, e), b)
  {
    SameItself(s, b);
    match e
    case ReplayNext(outcome) =>
      hide Replay, SameUpTo;
      if s.task.Replaying? && s.task.next < s.task.end { ReplayStaysBehind(s, outcome, b); }
    case Deliver(outcome) =>
      hide Receive, SameUpTo;
      if s.conn.Live? && s.task == NoTask && s.conn.next < |s.slots| { ReceiveStaysBehind(s, outcome, b); }
    case CatchUpRead =>
      hide ReadPages, SameUpTo;
      if s.last.Some? { ReadStaysBehind(s, s.last.value, false, b); }
    case SweepRead =>
      hide ReadPages;
      if s.queued.Some? { ReadStaysBehind(s, s.queued.value, true, b); }
    case _ =>
  }

  lemma {:induction false} SameItself(s: State, b: nat)
    ensures SameUpTo(s, s, b)
  {
  }

  lemma {:induction false} RunStaysBehind(s: State, es: seq<Event>, b: nat)
    requires Behind(s, b)
    ensures SameUpTo(s, Run(s, es), b)
    decreases |es|
  {
    if es != [] {
      StepStaysBehind(s, es[0], b);
      hide Step, Behind, Accounted;
      RunStaysBehind(Step(s, es[0]), es[1..], b);
    }
  }

  lemma {:induction false} StartLeavesBehind(s: State, e: Event)
    requires Inv(s) && MovesStart(s, e) && s.cursor.None? && Idle(s)
    ensures Behind(Step(s, e), |s.slots| - 1)
    ensures Step(s, e).stored == s.stored && Step(s, e).reported == s.reported
  {
  }

  /** Off the stream nothing is replayed or queued. */
  predicate Idle(s: State) {
    s.conn == Down || s.conn == Anchored ==> s.task == NoTask && s.queued.None?
  }

  lemma {:induction false} StepKeepsIdle(s: State, e: Event)
    requires Inv(s) && Idle(s) && QueuedLive(s)
    ensures Idle(Step(s, e)) && QueuedLive(Step(s, e))
  {
  }

  predicate QueuedLive(s: State) {
    s.queued.Some? ==> s.conn.Live? || s.conn.Closing?
  }

  lemma {:induction false} RunKeepsIdle(s: State, es: seq<Event>)
    requires Inv(s) && Idle(s) && QueuedLive(s)
    ensures Inv(Run(s, es)) && Idle(Run(s, es)) && QueuedLive(Run(s, es))
    decreases |es|
  {
    if es != [] {
      StepKeepsIdle(s, es[0]);
      StepKeepsInv(s, es[0]);
      hide Step, Inv, Idle, QueuedLive;
      RunKeepsIdle(Step(s, es[0]), es[1..]);
    }
  }

  /** What is passed while no cursor is stored is never handled again. */
  lemma {:induction false} PassedIsLost(es: seq<Event>, i: nat, p: nat)
    requires i < |es| && Passes(Run(Init(), es[..i]), es[i], p) && Run(Init(), es[..i]).cursor.None?
    ensures !Accounted(Run(Init(), es), p)
  {
    var s := Run(Init(), es[..i]);
    assert es == es[..i] + ([es[i]] + es[i + 1..]);
    RunAppend(Init(), es[..i], [es[i]] + es[i + 1..]);
    assert ([es[i]] + es[i + 1..])[1..] == es[i + 1..];
    RunKeepsIdle(Init(), es[..i]);
    StartLeavesBehind(s, es[i]);
    RunStaysBehind(Step(s, es[i]), es[i + 1..], |s.slots| - 1);
  }

  /**
   * Exactly what is lost without a word: in a run whose every start is made with no cursor
   * stored, what is behind the process was never stored or reported if and only if a
   * start passed it unhandled.
   */
  lemma {:induction false} SilentlyLostIff(es: seq<Event>, p: nat)
    requires CountedBehind(Run(Init(), es), p)
    requires forall i :: 0 <= i < |es| && MovesStart(Run(Init(), es[..i]), es[i]) ==> Run(Init(), es[..i]).cursor.None?
    ensures !Accounted(Run(Init(), es), p)
            <==> exists i :: 0 <= i < |es| && Passes(Run(Init(), es[..i]), es[i], p)
  {
    hide Inv, Step;
    if !Accounted(Run(Init(), es), p) { LostWasPassed(es, p); }
    if i :| 0 <= i < |es| && Passes(Run(Init(), es[..i]), es[i], p) { PassedIsLost(es, i, p); }
  }

  /**
   * With a cursor stored a start can pass a transaction and a crash still bring it back: a
   * sink that commits and then throws leaves a cursor and no `last`, the next start passes
   * what landed meanwhile, and the restart after a crash catches up from the cursor.
   */
  lemma {:induction false} CursorBringsBack()
    ensures var s := Run(Init(), [Anchor, Subscribe, GoLive, Land(0), Deliver(SinkThrew(true)), Land(0), Reconnect]);
            var t := Run(s, [Anchor, Crash, Anchor, Subscribe, CatchUpRead, ReplayNext(Stored)]);
            && Passes(s, Anchor, 1) && s.cursor == Some(0)
            && 1 in t.stored
  {
    hide Step;
    CommitThenThrow();
    var d := Init().(slots := [0, 0], stored := {0}, cursor := Some(0));
    RunSeven(Init(), Anchor, Subscribe, GoLive, Land(0), Deliver(SinkThrew(true)), Land(0), Reconnect);
    CatchUpFromCursor(d);
    RunSix(d, Anchor, Crash, Anchor, Subscribe, CatchUpRead, ReplayNext(Stored));
  }

  lemma {:induction false} CommitThenThrow()
    ensures Step(Step(Step(Step(Step(Step(Step(Init(), Anchor), Subscribe), GoLive), Land(0)), Deliver(SinkThrew(true))), Land(0)), Reconnect)
            == Init().(slots := [0, 0], stored := {0}, cursor := Some(0))
  {
    var a := Step(Step(Step(Init(), Anchor), Subscribe), GoLive);
    assert a == Init().(conn := Live(0));
    var b := Step(a, Land(0));
    assert b == a.(slots := [0]);
    var c := Step(b, Deliver(SinkThrew(true)));
    assert c == b.(conn := Closing, stored := {0}, cursor := Some(0));
    assert Step(c, Land(0)) == c.(slots := [0, 0]);
  }

  lemma {:induction false} CatchUpFromCursor(d: State)
    requires d == Init().(slots := [0, 0], stored := {0}, cursor := Some(0))
    ensures 1 in Step(Step(Step(Step(Step(Step(d, Anchor), Crash), Anchor), Subscribe), CatchUpRead), ReplayNext(Stored)).stored
  {
    var e := Step(Step(d, Anchor), Crash);
    assert e == d.(last := Some(0), floor := 1);
    var f := Step(Step(e, Anchor), Subscribe);
    assert f == e.(conn := Opened(2));
    var g := Step(f, CatchUpRead);
    assert g.task == Replaying(1, 2, false) && g.recent == [] && g.slots == [0, 0];
    hide Step;
    ReplayStores(g);
  }

  lemma {:induction false} ReplayStores(s: State)
    requires InHistory(s) && s.task.Replaying? && s.task.next < s.task.end && s.recent == []
    ensures s.task.next in Step(s, ReplayNext(Stored)).stored
  {
  }

  lemma {:induction false} RunSix(s: State, a: Event, b: Event, c: Event, d: Event, e: Event, f: Event)
    requires InHistory(s)
    ensures Run(s, [a, b, c, d, e, f]) == Step(Step(Step(Step(Step(Step(s, a), b), c), d), e), f)
  {
    hide Step;
    var four, two := [a, b, c, d], [e, f];
    assert [a, b, c, d, e, f] == four + two;
    RunAppend(s, four, two);
    RunFour(s, a, b, c, d);
    var t := Run(s, four);
    assert two[1..] == [f];
    assert Run(t, two) == Run(Step(t, e), [f]);
    assert Run(Step(t, e), [f]) == Run(Step(Step(t, e), f), []);
  }

  lemma {:induction false} RunSeven(s: State, a: Event, b: Event, c: Event, d: Event, e: Event, f: Event, g: Event)
    requires InHistory(s)
    ensures Run(s, [a, b, c, d, e, f, g]) == Step(Step(Step(Step(Step(Step(Step(s, a), b), c), d), e), f), g)
  {
    hide Step;
    assert [a, b, c, d, e, f, g][1..] == [b, c, d, e, f, g];
    RunSix(Step(s, a), b, c, d, e, f, g);
  }

  // ---------------------------------------------------------------- what the error log names

  lemma {:induction false} StepGrowsHistory(s: State, e: Event)
    requires InHistory(s)
    ensures |s.slots| <= |Step(s, e).slots|
  {
  }

  lemma {:induction false} HistoryOnlyGrows(s: State, es: seq<Event>)
    requires InHistory(s)
    ensures |s.slots| <= |Run(s, es).slots|
    decreases |es|
  {
    if es != [] {
      StepGrowsHistory(s, es[0]);
      hide Step;
      HistoryOnlyGrows(Step(s, es[0]), es[1..]);
    }
  }

  /** The transaction a step is handling, if it is. */
  function HandledBy(s: State, e: Event): Option<nat> {
    if e.ReplayNext? && s.task.Replaying? && s.task.next < s.task.end then Some(s.task.next)
    else if e.Deliver? && s.conn.Live? && s.task == NoTask && s.conn.next < |s.slots| then Some(s.conn.next)
    else None
  }

  /** Where the pages a step reads start from, if it reads any. */
  function ReadsFrom(s: State, e: Event): Option<nat> {
    if e.CatchUpRead? && s.conn.Opened? && s.task == NoTask then s.last
    else if e.SweepRead? && s.task == NoTask && (s.conn.Live? || s.conn.Closing?) then s.queued
    else None
  }

  /** The step gives `p` up while handling it. */
  predicate GivesUp(s: State, e: Event, p: nat) {
    HandledBy(s, e) == Some(p) && (e.ReplayNext? || e.Deliver?) && e.outcome.Skipped? && p !in s.recent
  }

  /** The step reads pages that end before reaching `p`: more than ten thousand landed after it. */
  predicate OutOfPages(s: State, e: Event, p: nat) {
    && ReadsFrom(s, e).Some? && ReadsFrom(s, e).value < p
    && p + CATCH_UP_DEPTH < |s.slots|
  }

  predicate Names(s: State, e: Event, p: nat) {
    GivesUp(s, e, p) || OutOfPages(s, e, p)
  }

  lemma {:induction false} HandleReportsIff(s: State, q: nat, outcome: Outcome, p: nat)
    requires InHistory(s) && q < |s.slots|
    ensures p in Handle(s, q, outcome).0.reported <==> p in s.reported || (p == q && outcome.Skipped? && q !in s.recent)
  {
  }

  lemma {:induction false} StepReportsIff(s: State, e: Event, p: nat)
    requires InHistory(s)
    ensures p in Step(s, e).reported <==> p in s.reported || Names(s, e, p)
  {
    var q := HandledBy(s, e);
    if q.Some? {
      HandleReportsIff(s, q.value, e.outcome, p);
      hide Handle, InHistory;
    }
  }

  /** Exactly what the error log names: what was given up, and what a catch-up or sweep could not reach. */
  lemma {:induction false} ReportedIff(s: State, es: seq<Event>, p: nat)
    requires InHistory(s)
    ensures p in Run(s, es).reported
            <==> p in s.reported || exists i :: 0 <= i < |es| && Names(Run(s, es[..i]), es[i], p)
    decreases |es|
  {
    if es != [] {
      var t, rest := Step(s, es[0]), es[1..];
      StepReportsIff(s, es[0], p);
      ReportedIff(t, rest, p);
      hide Step, Names, InHistory;
      assert es[..0] == [] && Run(s, []) == s;
      if i :| 0 <= i < |rest| && Names(Run(t, rest[..i]), rest[i], p) {
        RunFirst(s, es, i);
        assert Names(Run(s, es[..i + 1]), es[i + 1], p);
      }
      if i :| 0 < i < |es| && Names(Run(s, es[..i]), es[i], p) {
        RunFirst(s, es, i - 1);
        assert Names(Run(t, rest[..i - 1]), rest[i - 1], p);
      }
    }
  }

  /**
   * The error log is not an escape: in a run where no transaction is given up and each
   * catch-up and sweep starts within its pages, nothing is ever reported - so everything
   * accounted for is stored.
   */
  lemma {:induction false} NothingReportedWithoutCause(es: seq<Event>)
    requires forall i :: 0 <= i < |es| ==> !((es[i].ReplayNext? || es[i].Deliver?) && es[i].outcome.Skipped?)
    requires forall i :: 0 <= i < |es| && ReadsFrom(Run(Init(), es[..i]), es[i]).Some? ==>
               |Run(Init(), es[..i]).slots| <= ReadsFrom(Run(Init(), es[..i]), es[i]).value + 1 + CATCH_UP_DEPTH
    ensures Run(Init(), es).reported == {}
  {
    hide ReadsFrom;
    if p :| p in Run(Init(), es).reported {
      ReportedIff(Init(), es, p);
    }
  }

  // ---------------------------------------------------------------- where a gap can be silent

  lemma {:induction false} RunAppend(s: State, a: seq<Event>, b: seq<Event>)
    requires InHistory(s)
    ensures Run(s, a + b) == Run(Run(s, a), b)
    decreases |a|
  {
    if a == [] {
      assert a + b == b;
    } else {
      assert (a + b)[1..] == a[1..] + b;
      RunAppend(Step(s, a[0]), a[1..], b);
    }
  }

  function Lands(k: nat): seq<Event> {
    seq(k, i => Land(0))
  }

  function Zeros(k: nat): seq<nat> {
    seq(k, i => 0)
  }

  lemma {:induction false} RunLands(s: State, k: nat)
    requires InHistory(s) && s.slots == Zeros(|s.slots|)
    ensures Run(s, Lands(k)) == s.(slots := Zeros(|s.slots| + k))
    decreases k
  {
    if k > 0 {
      assert Lands(k)[1..] == Lands(k - 1);
      var t := Step(s, Land(0));
      assert t.slots == Zeros(|s.slots| + 1);
      RunLands(t, k - 1);
    }
  }

  lemma {:induction false} RunFour(s: State, a: Event, b: Event, c: Event, d: Event)
    requires InHistory(s)
    ensures Run(s, [a, b, c, d]) == Step(Step(Step(Step(s, a), b), c), d)
  {
    hide Step;
    assert [a, b, c, d][1..] == [b, c, d];
    assert [b, c, d][1..] == [c, d];
    assert [c, d][1..] == [d];
    var s1 := Step(s, a);
    var s2 := Step(s1, b);
    var s3 := Step(s2, c);
    assert Run(s, [a, b, c, d]) == Run(s1, [b, c, d]);
    assert Run(s1, [b, c, d]) == Run(s2, [c, d]);
    assert Run(s2, [c, d]) == Run(s3, [d]);
    assert Run(s3, [d]) == Run(Step(s3, d), []);
  }

  lemma {:induction false} OpenAndDeliver(s: State)
    requires InHistory(s) && s.slots == Zeros(|s.slots|)
    requires s == Init().(slots := s.slots, conn := Anchored)
    ensures var t := Step(Step(Step(Step(s, Subscribe), Land(0)), GoLive), Deliver(Stored));
            && t.last == Some(|s.slots|) && t.cursor == Some(|s.slots|)
            && t.stored == {|s.slots|} && t.reported == {}
  {
    var s1 := Step(s, Subscribe);
    var s2 := Step(s1, Land(0));
    assert s2.slots == s.slots + [0];
    var s3 := Step(s2, GoLive);
    assert s3.conn == Live(|s.slots|);
  }

  /**
   * An indexer that anchors on an empty history has no `last`: the `k` transactions
   * that land before the subscription opens are never handled, and the next one
   * moves `last` past them. Nothing is lost exactly when nothing lands in between.
   */
  lemma {:induction false} EmptyAnchorIsCompleteIff(k: nat)
    ensures var s := Run(Init(), [Anchor] + Lands(k) + [Subscribe, Land(0), GoLive, Deliver(Stored)]);
            && s.last == Some(k) && s.cursor == Some(k)
            && ((forall p: nat :: p <= k ==> p in s.stored || p in s.reported) <==> k == 0)
  {
    var open := [Anchor];
    var tail := [Subscribe, Land(0), GoLive, Deliver(Stored)];
    RunAppend(Init(), open + Lands(k), tail);
    RunAppend(Init(), open, Lands(k));
    var s0 := Run(Init(), open);
    assert s0 == Step(Init(), Anchor);
    RunLands(s0, k);
    var s1 := Run(s0, Lands(k));
    hide Step;
    RunFour(s1, Subscribe, Land(0), GoLive, Deliver(Stored));
    OpenAndDeliver(s1);
    var s5 := Run(s1, tail);
    assert s5.stored == {k} && s5.reported == {};
    if k > 0 { assert 0 !in s5.stored; }
  }

  /**
   * A process that dies before the first cursor is stored starts over at the newest
   * transaction: what landed since the first anchor is skipped, unless nothing did.
   */
  lemma {:induction false} RestartBeforeCursorIsCompleteIff(k: nat)
    ensures var s := Run(Init(), [Land(0), Anchor, Crash] + Lands(k) + [Anchor]);
            && s.last == Some(k)
            && ((forall p: nat :: 0 < p <= k ==> p in s.stored || p in s.reported) <==> k == 0)
  {
    var open := [Land(0), Anchor, Crash];
    RunAppend(Init(), open + Lands(k), [Anchor]);
    RunAppend(Init(), open, Lands(k));
    var s0 := Run(Init(), open);
    assert s0 == Step(Step(Step(Init(), Land(0)), Anchor), Crash) by {
      assert open[1..] == [Anchor, Crash];
      assert open[1..][1..] == [Crash];
    }
    RunLands(s0, k);
    var s1 := Run(s0, Lands(k));
    AnchorsAtNewest(s1, k);
  }

  lemma {:induction false} AnchorsAtNewest(s: State, k: nat)
    requires InHistory(s) && s.slots == Zeros(k + 1) && s.conn == Down && s.last == None
    requires s.stored == {} && s.reported == {}
    ensures var t := Run(s, [Anchor]);
            && t.last == Some(k)
            && ((forall p: nat :: 0 < p <= k ==> p in t.stored || p in t.reported) <==> k == 0)
  {
    assert Run(s, [Anchor]) == Step(s, Anchor);
    if k > 0 { assert k !in s.stored && k !in s.reported; }
  }
}
