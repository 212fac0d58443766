/**
 * One open stream: the outbox the hub pushes into, and the writer that drains it, sleeps
 * and pings. Every event below runs from one `await` of the writer to the next.
 */
module StreamOutbox {
  import opened Shared

  datatype Message = Ready | Ping | Resync | Update(row: string, version: nat)

  /**
   * What the writer awaits: a write, or a wake-up - `Some(false)` once the heartbeat ran
   * out. `Ended(true)` left its loop by a throw.
   */
  datatype Phase = Writing | Sleeping(woken: Option<bool>) | Ended(threw: bool)

  /**
   * `hand` is the batch taken and not yet written; `sent` is everything the hub pushed.
   * Specification only: each entry's mark says how many messages had been sent once it
   * was put in - `outMarks` those of `written` and `hand`, `waitingMarks` of `waiting`.
   */
  datatype State = State(waiting: seq<Message>, hand: seq<Message>, written: seq<Message>,
                         phase: Phase, closed: bool, sent: seq<Message>,
                         outMarks: seq<nat>, waitingMarks: seq<nat>)

  datatype Event = Send(message: Message) | Close | Heartbeat | Resume | WriteDone | WriteThrows

  /** Past `maxBacklog` everything waiting becomes one `resync`. */
  function Pushed(waiting: seq<Message>, m: Message, maxBacklog: nat): seq<Message> {
    if |waiting| + 1 > maxBacklog then [Resync] else waiting + [m]
  }

  /** The marks beside `Pushed`: the new entry's, alone or after the others'. */
  function MarksPushed(marks: seq<nat>, count: nat, maxBacklog: nat, mark: nat): seq<nat> {
    if count + 1 > maxBacklog then [mark] else marks + [mark]
  }

  /** `m` is put in, by the hub or - a `ping` - by the writer; `sent` is what the hub had pushed by then. */
  function Put(s: State, m: Message, maxBacklog: nat, sent: seq<Message>): State {
    s.(waiting := Pushed(s.waiting, m, maxBacklog), sent := sent,
       waitingMarks := MarksPushed(s.waitingMarks, |s.waiting|, maxBacklog, |sent|))
  }

  function Initial(): State {
    State([Ready], [], [], Sleeping(Some(true)), false, [], [], [0])
  }

  /** A wake-up only reaches a writer that is asleep; the timer is cleared by it. */
  function Woken(phase: Phase): Phase {
    if phase == Sleeping(None) then Sleeping(Some(true)) else phase
  }

  /** The writer's loops, up to the next `await`. */
  function Advance(s: State): State {
    if s.hand != [] then s.(phase := Writing)
    else if s.waiting != [] && !s.closed then
      s.(hand := s.waiting, waiting := [], phase := Writing, outMarks := s.outMarks + s.waitingMarks, waitingMarks := [])
    else if s.closed then s.(phase := Ended(false))
    else s.(phase := Sleeping(None))
  }

  /** A write, or the check of the message before it, that throws takes the writer out of its loop there and then. */
  function Step(s: State, maxBacklog: nat, e: Event): State {
    match e
    case Send(m) =>
      if s.phase.Ended? then s
      else Put(s, m, maxBacklog, s.sent + [m]).(phase := Woken(s.phase))
    case Close => s.(closed := true, phase := Woken(s.phase))
    case Heartbeat => if s.phase == Sleeping(None) then s.(phase := Sleeping(Some(false))) else s
    case Resume =>
      if s.phase == Sleeping(Some(true)) then Advance(s)
      else if s.phase == Sleeping(Some(false)) then Advance(Put(s, Ping, maxBacklog, s.sent))
      else s
    case WriteDone =>
      if s.phase.Writing? && s.hand != [] then Advance(s.(written := s.written + [s.hand[0]], hand := s.hand[1..])) else s
    case WriteThrows => if s.phase.Writing? then s.(phase := Ended(true)) else s
  }

  function Run(s: State, maxBacklog: nat, events: seq<Event>): State
    decreases |events|
  {
    if events == [] then s else Run(Step(s, maxBacklog, events[0]), maxBacklog, events[1..])
  }

  // ---------------------------------------------------------------- what the client is told

  /** How much of what was sent the entries before the `j`-th answer for. */
  function Before(marks: seq<nat>, j: nat): nat
    requires j <= |marks|
  {
    if j == 0 then 0 else marks[j - 1]
  }

  /**
   * The `j`-th entry answers for what was sent between the mark before it and its own:
   * nothing, exactly one message and it is that one, or - a `resync` - any number.
   */
  ghost predicate Answers(out: seq<Message>, marks: seq<nat>, sent: seq<Message>, j: nat)
    requires j < |out| == |marks|
  {
    var from := Before(marks, j);
    && from <= marks[j] <= |sent|
    && (|| ((out[j].Ready? || out[j].Ping?) && marks[j] == from)
        || (marks[j] == from + 1 && out[j] == sent[from])
        || out[j].Resync?)
  }

  /** Entry by entry, `out` answers for everything sent; no entry for what was sent after it was put in. */
  ghost predicate Accounts(out: seq<Message>, marks: seq<nat>, sent: seq<Message>) {
    && |out| == |marks| && Before(marks, |marks|) == |sent|
    && forall j :: 0 <= j < |out| ==> Answers(out, marks, sent, j)
  }

  /**
   * The entry that answers for the `i`-th message sent, put in no earlier than it was: the
   * first with a later mark. It is the message itself, or a `resync`.
   */
  ghost predicate AnsweredAt(out: seq<Message>, marks: seq<nat>, sent: seq<Message>, i: nat, j: nat)
    requires |out| == |marks| && i < |sent| && j < |out|
  {
    Before(marks, j) <= i < marks[j] && (out[j] == sent[i] || out[j].Resync?)
  }

  lemma {:induction false} MarkPasses(marks: seq<nat>, i: nat) returns (j: nat)
    requires i < Before(marks, |marks|)
    ensures j < |marks| && Before(marks, j) <= i < marks[j]
    decreases |marks|
  {
    j := |marks| - 1;
    if i < Before(marks, j) {
      j := MarkPasses(marks[..j], i);
    }
  }

  /** No message is lost silently: each is there, or a `resync` put in after it was sent. */
  lemma {:induction false} NothingIsLostSilently(out: seq<Message>, marks: seq<nat>, sent: seq<Message>, i: nat)
    requires Accounts(out, marks, sent) && i < |sent|
    ensures exists j :: 0 <= j < |out| && AnsweredAt(out, marks, sent, i, j)
  {
    var j := MarkPasses(marks, i);
    assert Answers(out, marks, sent, j);
    assert AnsweredAt(out, marks, sent, i, j);
  }

  predicate FromHub(m: Message) {
    m.Resync? || m.Update?
  }

  function Content(out: seq<Message>): seq<Message> {
    if out == [] then []
    else
      var m := out[|out| - 1];
      Content(out[..|out| - 1]) + if FromHub(m) then [m] else []
  }

  lemma {:induction false} ContentUpTo(out: seq<Message>, marks: seq<nat>, sent: seq<Message>, n: nat)
    requires Accounts(out, marks, sent) && Resync !in out && (forall m :: m in sent ==> FromHub(m)) && n <= |out|
    ensures Before(marks, n) <= |sent| && Content(out[..n]) == sent[..Before(marks, n)]
    decreases n
  {
    if n > 0 {
      ContentUpTo(out, marks, sent, n - 1);
      assert Answers(out, marks, sent, n - 1) && out[n - 1] in out;
      assert out[..n][..n - 1] == out[..n - 1];
      var from := Before(marks, n - 1);
      if marks[n - 1] == from + 1 { assert sent[from] in sent && sent[..from + 1] == sent[..from] + [sent[from]]; }
    }
  }

  /** Without a `resync` the client got everything sent, in order, and nothing else. */
  lemma {:induction false} LosslessWithoutResync(out: seq<Message>, marks: seq<nat>, sent: seq<Message>)
    requires Accounts(out, marks, sent) && Resync !in out && forall m :: m in sent ==> FromHub(m)
    ensures Content(out) == sent
  {
    ContentUpTo(out, marks, sent, |out|);
    assert out[..|out|] == out && sent[..|sent|] == sent;
  }

  // ---------------------------------------------------------------- what every step keeps

  function Out(s: State): seq<Message> {
    s.written + s.hand + s.waiting
  }

  function Marks(s: State): seq<nat> {
    s.outMarks + s.waitingMarks
  }

  function Max(a: nat, b: nat): nat {
    if a < b then b else a
  }

  /** What holds whatever the writer is doing. */
  ghost predicate Sound(s: State, maxBacklog: nat) {
    && Accounts(Out(s), Marks(s), s.sent)
    && |s.outMarks| == |s.written| + |s.hand| && |s.waiting| <= Max(1, maxBacklog)
  }

  ghost predicate Inv(s: State, maxBacklog: nat) {
    && Sound(s, maxBacklog)
    && (s.phase.Writing? ==> s.hand != [])
    && (s.phase.Sleeping? || s.phase == Ended(false) ==> s.hand == [])
    && (s.phase == Sleeping(None) ==> s.waiting == [] && !s.closed)
    && (s.phase == Ended(false) ==> s.closed)
  }

  /** One more entry at the end, for whatever was sent since the last mark. */
  lemma {:induction false} OneMoreAnswers(out: seq<Message>, marks: seq<nat>, sent: seq<Message>, m: Message, now: seq<Message>)
    requires |out| == |marks| && Before(marks, |marks|) <= |sent| <= |now| && now[..|sent|] == sent
    requires forall j :: 0 <= j < |out| ==> Answers(out, marks, sent, j)
    requires m.Resync? || ((m.Ready? || m.Ping?) && Before(marks, |marks|) == |now|)
             || (Before(marks, |marks|) == |sent| && now == sent + [m])
    ensures Accounts(out + [m], marks + [|now|], now)
  {
    var put, next := out + [m], marks + [|now|];
    forall j | 0 <= j < |put| ensures Answers(put, next, now, j) {
      if j < |out| {
        assert Answers(out, marks, sent, j) && Before(next, j) == Before(marks, j);
        if Before(marks, j) < |sent| { assert now[Before(marks, j)] == now[..|sent|][Before(marks, j)]; }
      }
    }
  }

  /** The first entries answer for no more than was sent. */
  lemma {:induction false} FirstOfAnswer(out: seq<Message>, marks: seq<nat>, sent: seq<Message>, n: nat)
    requires Accounts(out, marks, sent) && n <= |out|
    ensures Before(marks[..n], n) <= |sent|
    ensures forall j :: 0 <= j < n ==> Answers(out[..n], marks[..n], sent, j)
  {
    if n > 0 { assert Answers(out, marks, sent, n - 1); }
    forall j | 0 <= j < n ensures Answers(out[..n], marks[..n], sent, j) {
      assert Answers(out, marks, sent, j);
    }
  }

  lemma {:induction false} PutKeepsSound(s: State, m: Message, maxBacklog: nat, now: seq<Message>)
    requires Sound(s, maxBacklog)
    requires now == s.sent + [m] || ((m.Ready? || m.Ping?) && now == s.sent)
    ensures Sound(Put(s, m, maxBacklog, now), maxBacklog)
  {
    hide Answers;
    var t, done := Put(s, m, maxBacklog, now), |s.outMarks|;
    if |s.waiting| + 1 > maxBacklog {
      FirstOfAnswer(Out(s), Marks(s), s.sent, done);
      assert Out(s)[..done] == s.written + s.hand && Marks(s)[..done] == s.outMarks;
      OneMoreAnswers(s.written + s.hand, s.outMarks, s.sent, Resync, now);
    } else {
      OneMoreAnswers(Out(s), Marks(s), s.sent, m, now);
      assert Out(t) == Out(s) + [m] && Marks(t) == Marks(s) + [|now|];
    }
  }

  lemma {:induction false} AdvanceKeepsInv(s: State, maxBacklog: nat)
    requires Sound(s, maxBacklog)
    ensures Inv(Advance(s), maxBacklog)
  {
    hide Accounts;
    var t := Advance(s);
    assert Out(t) == Out(s) && Marks(t) == Marks(s);
    assert |s.waitingMarks| == |s.waiting| by { SameLength(s, maxBacklog); }
  }

  lemma {:induction false} SameLength(s: State, maxBacklog: nat)
    requires Sound(s, maxBacklog)
    ensures |s.waitingMarks| == |s.waiting|
  {
  }

  lemma {:induction false} StepKeepsInv(s: State, maxBacklog: nat, e: Event)
    requires Inv(s, maxBacklog)
    ensures Inv(Step(s, maxBacklog, e), maxBacklog)
  {
    hide Accounts, Advance, Put;
    match e
    case Send(m) =>
      PutKeepsSound(s, m, maxBacklog, s.sent + [m]);
      PutLeavesTheRest(s, m, maxBacklog, s.sent + [m]);
      if !s.phase.Ended? { SoundInAnyPhase(Put(s, m, maxBacklog, s.sent + [m]), maxBacklog, Woken(s.phase)); }
    case Resume =>
      if s.phase == Sleeping(Some(true)) {
        AdvanceKeepsInv(s, maxBacklog);
      } else if s.phase == Sleeping(Some(false)) {
        PutKeepsSound(s, Ping, maxBacklog, s.sent);
        AdvanceKeepsInv(Put(s, Ping, maxBacklog, s.sent), maxBacklog);
      }
    case WriteDone =>
      if s.phase.Writing? {
        var wrote := s.(written := s.written + [s.hand[0]], hand := s.hand[1..]);
        assert Out(wrote) == Out(s) && Marks(wrote) == Marks(s);
        AdvanceKeepsInv(wrote, maxBacklog);
      }
    case _ =>
      assert Out(Step(s, maxBacklog, e)) == Out(s) && Marks(Step(s, maxBacklog, e)) == Marks(s);
  }

  lemma {:induction false} PutLeavesTheRest(s: State, m: Message, maxBacklog: nat, sent: seq<Message>)
    ensures var t := Put(s, m, maxBacklog, sent);
            t == s.(waiting := t.waiting, waitingMarks := t.waitingMarks, sent := sent)
  {
  }

  lemma {:induction false} SoundInAnyPhase(s: State, maxBacklog: nat, phase: Phase)
    requires Sound(s, maxBacklog)
    ensures Sound(s.(phase := phase), maxBacklog)
  {
    hide Accounts;
    assert Out(s.(phase := phase)) == Out(s) && Marks(s.(phase := phase)) == Marks(s);
  }

  /** `t` comes after `s`: what was taken from the outbox stays, with its marks, and more may follow it. */
  ghost predicate OnlyAdds(s: State, t: State) {
    && s.written <= t.written && s.written + s.hand <= t.written + t.hand
    && s.outMarks <= t.outMarks && s.sent <= t.sent
  }

  lemma {:induction false} StepOnlyAdds(s: State, maxBacklog: nat, e: Event)
    ensures OnlyAdds(s, Step(s, maxBacklog, e))
  {
    hide Pushed, MarksPushed;
    if e.WriteDone? && s.phase.Writing? && s.hand != [] {
      assert s.written + [s.hand[0]] + s.hand[1..] == s.written + s.hand;
    }
  }

  /**
   * Under every interleaving of messages, wake-ups, writes, throws and closes: entry by
   * entry, what was written, is in hand or waits answers for everything the hub sent, and
   * what was taken never changes again; the backlog is bounded; and a writer asleep with
   * no wake-up coming has written it all, on an open stream.
   */
  lemma {:induction false} NoLostChange(s: State, maxBacklog: nat, events: seq<Event>)
    requires Inv(s, maxBacklog)
    ensures var t := Run(s, maxBacklog, events);
            && Inv(t, maxBacklog) && OnlyAdds(s, t)
            && Accounts(Out(t), Marks(t), t.sent)
            && |t.waiting| <= Max(1, maxBacklog)
            && (t.phase == Sleeping(None) ==> t.waiting == [] && t.hand == [] && !t.closed)
            && (t.phase == Sleeping(None) ==> Accounts(t.written, t.outMarks, t.sent))
    decreases |events|
  {
    hide Step, Accounts;
    if events != [] {
      var next := Step(s, maxBacklog, events[0]);
      StepKeepsInv(s, maxBacklog, events[0]);
      StepOnlyAdds(s, maxBacklog, events[0]);
      NoLostChange(next, maxBacklog, events[1..]);
    } else if s.phase == Sleeping(None) {
      AsleepAllIsWritten(s, maxBacklog);
    }
  }

  lemma {:induction false} AsleepAllIsWritten(s: State, maxBacklog: nat)
    requires Inv(s, maxBacklog) && s.phase == Sleeping(None)
    ensures Out(s) == s.written && Marks(s) == s.outMarks
  {
    hide Accounts;
    SameLength(s, maxBacklog);
  }

  /** What was taken so far answers for nothing sent later. */
  lemma {:induction false} TakenBefore(s: State, maxBacklog: nat)
    requires Inv(s, maxBacklog)
    ensures |s.outMarks| == |s.written| + |s.hand| && forall j :: 0 <= j < |s.outMarks| ==> s.outMarks[j] <= |s.sent|
  {
    forall j | 0 <= j < |s.outMarks| ensures s.outMarks[j] <= |s.sent| {
      assert Answers(Out(s), Marks(s), s.sent, j);
    }
  }

  lemma {:induction false} AnsweredAfter(u: State, sent: State, t: State, maxBacklog: nat, i: nat)
    requires Inv(u, maxBacklog) && Inv(t, maxBacklog) && i == |u.sent| && i < |sent.sent|
    requires OnlyAdds(u, sent) && OnlyAdds(sent, t)
    ensures exists j :: |u.written| + |u.hand| <= j < |Out(t)| && (Out(t)[j] == sent.sent[i] || Out(t)[j].Resync?)
  {
    NothingIsLostSilently(Out(t), Marks(t), t.sent, i);
    var j :| 0 <= j < |Out(t)| && AnsweredAt(Out(t), Marks(t), t.sent, i, j);
    assert t.sent[i] == sent.sent[i];
    assert j < |u.outMarks| ==> Marks(t)[j] == t.outMarks[j] == sent.outMarks[j] == u.outMarks[j];
    TakenBefore(u, maxBacklog);
  }

  /**
   * The same without marks. From whenever the hub sends a message to a stream still there,
   * at every later moment the message or a `resync` stands behind everything that had been
   * taken from the outbox by then - and once the writer sleeps, has been written.
   */
  lemma {:induction false} SentIsWrittenAfter(s: State, maxBacklog: nat, m: Message, later: seq<Event>)
    requires Inv(s, maxBacklog) && !s.phase.Ended?
    ensures var t := Run(Step(s, maxBacklog, Send(m)), maxBacklog, later);
            && s.written + s.hand <= Out(t)
            && (exists j :: |s.written| + |s.hand| <= j < |Out(t)| && (Out(t)[j] == m || Out(t)[j].Resync?))
            && (t.phase == Sleeping(None) ==> Out(t) == t.written)
  {
    var sent := Step(s, maxBacklog, Send(m));
    assert sent.sent == s.sent + [m];
    StepKeepsInv(s, maxBacklog, Send(m));
    StepOnlyAdds(s, maxBacklog, Send(m));
    hide Step;
    NoLostChange(sent, maxBacklog, later);
    var t := Run(sent, maxBacklog, later);
    AnsweredAfter(s, sent, t, maxBacklog, |s.sent|);
    if t.phase == Sleeping(None) { AsleepAllIsWritten(t, maxBacklog); }
  }

  /** A push always has room at these steps, and the hub sends no `resync` of its own. */
  ghost predicate HasRoom(s: State, maxBacklog: nat, events: seq<Event>) {
    && (forall i :: 0 <= i < |events| ==> |Run(s, maxBacklog, events[..i]).waiting| < maxBacklog)
    && (forall i :: 0 <= i < |events| ==> events[i] != Send(Resync))
  }

  lemma {:induction false} StepKeepsMessages(s: State, maxBacklog: nat, e: Event)
    requires |s.waiting| < maxBacklog && e != Send(Resync) && Resync !in Out(s)
    ensures Resync !in Out(Step(s, maxBacklog, e))
  {
    if e.WriteDone? && s.phase.Writing? && s.hand != [] { assert s.hand == [s.hand[0]] + s.hand[1..]; }
  }

  lemma {:induction false} RoomForTheRest(s: State, maxBacklog: nat, events: seq<Event>)
    requires events != [] && HasRoom(s, maxBacklog, events)
    ensures |s.waiting| < maxBacklog && HasRoom(Step(s, maxBacklog, events[0]), maxBacklog, events[1..])
  {
    hide Step;
    assert events[..0] == [] && Run(s, maxBacklog, events[..0]) == s;
    forall i | 0 <= i < |events| - 1
      ensures Run(Step(s, maxBacklog, events[0]), maxBacklog, events[1..][..i]) == Run(s, maxBacklog, events[..i + 1])
    {
      assert events[..i + 1][1..] == events[1..][..i];
    }
  }

  /** A `resync` is no way out: while the backlog has room the client gets each message itself, in order. */
  lemma {:induction false} RoomLosesNothing(s: State, maxBacklog: nat, events: seq<Event>)
    requires Inv(s, maxBacklog) && Resync !in Out(s) && HasRoom(s, maxBacklog, events)
    requires (forall m :: m in s.sent ==> FromHub(m)) && forall i :: 0 <= i < |events| && events[i].Send? ==> FromHub(events[i].message)
    ensures var t := Run(s, maxBacklog, events); Resync !in Out(t) && Content(Out(t)) == t.sent
    decreases |events|
  {
    if events == [] {
      LosslessWithoutResync(Out(s), Marks(s), s.sent);
    } else {
      var next := Step(s, maxBacklog, events[0]);
      RoomForTheRest(s, maxBacklog, events);
      StepKeepsInv(s, maxBacklog, events[0]);
      StepKeepsMessages(s, maxBacklog, events[0]);
      SentIs(s, maxBacklog, events[0]);
      hide Step, Inv, HasRoom, Out;
      RoomLosesNothing(next, maxBacklog, events[1..]);
    }
  }

  lemma {:induction false} SentIs(s: State, maxBacklog: nat, e: Event)
    ensures Step(s, maxBacklog, e).sent == if e.Send? && !s.phase.Ended? then s.sent + [e.message] else s.sent
  {
  }

  /** The first thing a client gets is `ready`. */
  lemma {:induction false} ReadyComesFirst(maxBacklog: nat)
    ensures var t := Run(Initial(), maxBacklog, [Resume, WriteDone]);
            t.written == [Ready] && t.hand == [] && t.phase == Sleeping(None)
  {
    assert [Resume, WriteDone][1..] == [WriteDone] && [WriteDone][1..] == [];
    var s := Step(Initial(), maxBacklog, Resume);
    assert s.hand == [Ready] && s.phase == Writing;
    assert Run(Initial(), maxBacklog, [Resume, WriteDone]) == Run(s, maxBacklog, [WriteDone]);
    assert Run(s, maxBacklog, [WriteDone]) == Run(Step(s, maxBacklog, WriteDone), maxBacklog, []);
  }

  /** A writer asleep is woken by its heartbeat, and writes a pulse. */
  lemma {:induction false} QuietStreamsPing(s: State, maxBacklog: nat)
    requires Inv(s, maxBacklog) && s.phase == Sleeping(None) && maxBacklog > 0
    ensures var t := Step(Step(s, maxBacklog, Heartbeat), maxBacklog, Resume);
            t.phase == Writing && t.hand == [Ping] && t.waiting == [] && t.written == s.written
  {
  }

  lemma {:induction false} InitialHolds(maxBacklog: nat)
    ensures Inv(Initial(), maxBacklog)
  {
    assert Out(Initial()) == [Ready] && Marks(Initial()) == [0];
  }

  // ---------------------------------------------------------------- the outbox itself

  class Outbox {
    const maxBacklog: nat
    var waiting: seq<Message>

    constructor (maxBacklog: nat)
      ensures this.maxBacklog == maxBacklog && waiting == Initial().waiting
    {
      this.maxBacklog, waiting := maxBacklog, [Ready];
    }

    method Push(message: Message)
      modifies this
      ensures waiting == Pushed(old(waiting), message, maxBacklog)
      ensures waiting == if |old(waiting)| < maxBacklog then old(waiting) + [message] else [Resync]
    {
      waiting := waiting + [message];
      if |waiting| > maxBacklog {
        waiting := [Resync];
      }
    }

    /** Everything waiting, oldest first; the outbox is empty afterwards. */
    method Take() returns (taken: seq<Message>)
      modifies this
      ensures taken == old(waiting) && waiting == []
    {
      taken, waiting := waiting, [];
    }
  }
}
