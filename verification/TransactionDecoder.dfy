/**
 * One transaction of the program to the events of the permissions it touched: where
 * each instruction stands in execution order, and which of them become events.
 */
module TransactionDecoder {
  import opened Shared

  /** What one of the program's instructions is about; `Closure` and `PlanUpdate` name no permission. */
  datatype Body =
    | Created(allowance: string)
    | Charged(allowance: string, amount: nat)
    | Rejected(allowance: string, attempted: nat)
    | Cancelled(allowance: string, stopsAt: int)
    | Resumed(allowance: string)
    | Revoked(allowance: string)
    | PlanUpdate(plan: string)
    | Closure(owner: string, authority: string)

  /** How an instruction's data reads: an event, tagged bytes that are none, or a parsed instruction. */
  datatype Content =
    | EventData(body: Body)
    | UnreadableEvent
    | Unparsable
    | ChargeAttempt(allowance: string, attempted: nat)
    | Change(body: Body)
    | Other

  datatype Instruction = Instruction(program: string, content: Content)

  datatype Located = Located(outerIndex: nat, inner: bool, instruction: Instruction)

  datatype Failure = Success | InInstruction(index: nat) | Elsewhere

  datatype Transaction = Transaction(signature: string, outers: seq<Instruction>, inners: map<nat, seq<Instruction>>,
                                     failure: Failure, logsNameUs: bool)

  datatype Event = Event(position: nat, outerIndex: nat, body: Body)

  datatype Problem = UnreadableAt(outerIndex: nat) | UnparsableAt(outerIndex: nat) | Unattributed(outerIndex: nat)

  // ---------------------------------------------------------------- execution order

  function InnersOf(tx: Transaction, outer: nat): seq<Instruction> {
    if outer in tx.inners then tx.inners[outer] else []
  }

  function Inner(outer: nat, inners: seq<Instruction>): seq<Located> {
    seq(|inners|, i requires 0 <= i < |inners| => Located(outer, true, inners[i]))
  }

  /** Every instruction from the `from`-th top-level one on, each followed by the ones it called. */
  function AllFrom(tx: Transaction, from: nat): seq<Located>
    requires from <= |tx.outers|
    decreases |tx.outers| - from
  {
    if from == |tx.outers| then []
    else [Located(from, false, tx.outers[from])] + Inner(from, InnersOf(tx, from)) + AllFrom(tx, from + 1)
  }

  /** Where the `outer`-th top-level instruction stands. */
  function StartOf(tx: Transaction, outer: nat): nat
    requires outer <= |tx.outers|
  {
    if outer == 0 then 0 else StartOf(tx, outer - 1) + 1 + |InnersOf(tx, outer - 1)|
  }

  method AllInstructions(tx: Transaction) returns (all: seq<Located>)
    ensures all == AllFrom(tx, 0)
  {
    all := [];
    var outer := 0;
    while outer < |tx.outers|
      invariant 0 <= outer <= |tx.outers|
      invariant all + AllFrom(tx, outer) == AllFrom(tx, 0)
    {
      ghost var rest := AllFrom(tx, outer);
      var group := [Located(outer, false, tx.outers[outer])] + Inner(outer, InnersOf(tx, outer));
      assert rest == group + AllFrom(tx, outer + 1);
      assert all + rest == (all + group) + AllFrom(tx, outer + 1);
      all := all + group;
      outer := outer + 1;
    }
    assert all + AllFrom(tx, outer) == all;
  }

  lemma {:induction false} StartGrows(tx: Transaction, a: nat, b: nat)
    requires a < b <= |tx.outers|
    ensures StartOf(tx, a) + 1 + |InnersOf(tx, a)| <= StartOf(tx, b)
  {
    if a + 1 < b { StartGrows(tx, a, b - 1); }
  }

  /** The `from`-th instruction and its calls come first, then the rest. */
  lemma {:induction false} GroupThenRest(tx: Transaction, from: nat, i: nat)
    requires from < |tx.outers|
    ensures var all, n, rest := AllFrom(tx, from), 1 + |InnersOf(tx, from)|, AllFrom(tx, from + 1);
            && |all| == n + |rest| && all[0] == Located(from, false, tx.outers[from])
            && (i < |rest| ==> all[n + i] == rest[i])
            && (i < n - 1 ==> all[1 + i] == Located(from, true, InnersOf(tx, from)[i]))
  {
  }

  /** The `i`-th of a top-level instruction's group: itself, then the calls it made. */
  function InGroup(tx: Transaction, outer: nat, i: nat): Located
    requires outer < |tx.outers| && i <= |InnersOf(tx, outer)|
  {
    if i == 0 then Located(outer, false, tx.outers[outer]) else Located(outer, true, InnersOf(tx, outer)[i - 1])
  }

  /** What stands at a position counted from the `from`-th top-level instruction on. */
  lemma {:induction false} StandsFrom(tx: Transaction, from: nat, outer: nat, i: nat)
    requires from <= outer < |tx.outers| && i <= |InnersOf(tx, outer)|
    ensures StartOf(tx, from) <= StartOf(tx, outer)
    ensures var at := StartOf(tx, outer) - StartOf(tx, from) + i;
            at < |AllFrom(tx, from)| && AllFrom(tx, from)[at] == InGroup(tx, outer, i)
    decreases |tx.outers| - from
  {
    hide AllFrom;
    GroupThenRest(tx, from, 0);
    if from < outer {
      assert StartOf(tx, from + 1) == StartOf(tx, from) + 1 + |InnersOf(tx, from)|;
      StandsFrom(tx, from + 1, outer, i);
      hide StartOf, InnersOf, InGroup;
      GroupThenRest(tx, from, StartOf(tx, outer) - StartOf(tx, from + 1) + i);
    } else if i > 0 {
      GroupThenRest(tx, from, i - 1);
    }
  }

  /**
   * A position is a property of the transaction: the instructions before it and the
   * calls they made, so two instructions never share one.
   */
  lemma {:induction false} PositionsAreExecutionOrder(tx: Transaction, outer: nat, i: nat)
    requires outer < |tx.outers| && i <= |InnersOf(tx, outer)|
    ensures StartOf(tx, outer) + i < |AllFrom(tx, 0)|
    ensures AllFrom(tx, 0)[StartOf(tx, outer) + i] == InGroup(tx, outer, i)
    ensures forall next :: outer < next < |tx.outers| ==> StartOf(tx, outer) + i < StartOf(tx, next)
  {
    StandsFrom(tx, 0, outer, i);
    forall next | outer < next < |tx.outers| ensures StartOf(tx, outer) + i < StartOf(tx, next) {
      StartGrows(tx, outer, next);
    }
  }

  // ---------------------------------------------------------------- instructions to events

  predicate InFailed(tx: Transaction, program: string, l: Located) {
    tx.failure.InInstruction? && l.instruction.program == program && l.outerIndex == tx.failure.index
  }

  /** Our program logged the failure, or the failed instruction is ours directly. */
  predicate RefusedByUs(tx: Transaction, program: string) {
    tx.logsNameUs || exists l :: l in AllFrom(tx, 0) && InFailed(tx, program, l) && !l.inner
  }

  /** What one instruction of the transaction becomes. */
  function EventOf(tx: Transaction, program: string, l: Located): Option<Body> {
    if l.instruction.program != program then None
    else match tx.failure
      case Success =>
        (match l.instruction.content
         case EventData(body) => Some(body)
         case Change(body) => Some(body)
         case _ => None)
      case InInstruction(index) =>
        if l.outerIndex == index && l.instruction.content.ChargeAttempt? && RefusedByUs(tx, program)
        then Some(Rejected(l.instruction.content.allowance, l.instruction.content.attempted)) else None
      case Elsewhere => None
  }

  /** The failure is visibly ours: logged by our program, or of a top-level instruction to it. */
  ghost predicate VisiblyOurs(tx: Transaction, program: string) {
    tx.logsNameUs
    || (tx.failure.InInstruction? && tx.failure.index < |tx.outers| && tx.outers[tx.failure.index].program == program)
  }

  /**
   * What is to become an event: of a transaction that went through, the program's own
   * events and the changes its other instructions make; of a failed one, the charges that
   * the failed instruction tried, once the refusal is visibly ours.
   */
  ghost predicate Becomes(tx: Transaction, program: string, l: Located, body: Body) {
    && l.instruction.program == program
    && match tx.failure
       case Success => l.instruction.content == EventData(body) || l.instruction.content == Change(body)
       case InInstruction(index) =>
         && l.outerIndex == index && VisiblyOurs(tx, program) && l.instruction.content.ChargeAttempt?
         && body == Rejected(l.instruction.content.allowance, l.instruction.content.attempted)
       case Elsewhere => false
  }

  lemma {:induction false} LocatedFrom(tx: Transaction, from: nat, l: Located)
    requires from <= |tx.outers|
    ensures l in AllFrom(tx, from) ==> from <= l.outerIndex < |tx.outers|
    ensures l in AllFrom(tx, from) && !l.inner ==> l.instruction == tx.outers[l.outerIndex]
    ensures forall k :: from <= k < |tx.outers| ==> Located(k, false, tx.outers[k]) in AllFrom(tx, from)
    decreases |tx.outers| - from
  {
    if from < |tx.outers| {
      LocatedFrom(tx, from + 1, l);
      var first, rest := [Located(from, false, tx.outers[from])] + Inner(from, InnersOf(tx, from)), AllFrom(tx, from + 1);
      assert AllFrom(tx, from) == first + rest;
      assert forall m :: m in first ==> m.outerIndex == from && (!m.inner ==> m == first[0]);
    }
  }

  lemma {:induction false} RefusedMeansOurs(tx: Transaction, program: string)
    requires tx.failure.InInstruction?
    ensures RefusedByUs(tx, program) <==> VisiblyOurs(tx, program)
  {
    hide AllFrom;
    if l :| l in AllFrom(tx, 0) && InFailed(tx, program, l) && !l.inner { LocatedFrom(tx, 0, l); }
    if tx.failure.index < |tx.outers| && tx.outers[tx.failure.index].program == program {
      var l := Located(tx.failure.index, false, tx.outers[tx.failure.index]);
      LocatedFrom(tx, 0, l);
      assert InFailed(tx, program, l);
    }
  }

  lemma {:induction false} EventOfSays(tx: Transaction, program: string, l: Located, body: Body)
    ensures EventOf(tx, program, l) == Some(body) <==> Becomes(tx, program, l, body)
  {
    if tx.failure.InInstruction? { RefusedMeansOurs(tx, program); }
    hide RefusedByUs, VisiblyOurs;
  }

  function ProblemOf(tx: Transaction, program: string, l: Located): Option<Problem> {
    if l.instruction.program != program || tx.failure != Success then None
    else match l.instruction.content
      case UnreadableEvent => Some(UnreadableAt(l.outerIndex))
      case Unparsable => Some(UnparsableAt(l.outerIndex))
      case _ => None
  }

  /** The problems of a list of instructions, in their order. */
  function ProblemsOf(tx: Transaction, program: string, ls: seq<Located>): seq<Problem> {
    if ls == [] then []
    else
      var last := ProblemOf(tx, program, ls[|ls| - 1]);
      ProblemsOf(tx, program, ls[..|ls| - 1]) + if last.Some? then [last.value] else []
  }

  /** An instruction's problem is named, and nothing else is. */
  lemma {:induction false} ProblemsAreTheirs(tx: Transaction, program: string, ls: seq<Located>)
    ensures forall q :: q in ProblemsOf(tx, program, ls) <==> exists l :: l in ls && ProblemOf(tx, program, l) == Some(q)
  {
    hide ProblemOf;
    if ls != [] {
      var before, last := ls[..|ls| - 1], ls[|ls| - 1];
      ProblemsAreTheirs(tx, program, before);
      forall q ensures q in ProblemsOf(tx, program, ls) <==> exists l :: l in ls && ProblemOf(tx, program, l) == Some(q) {
        assert ls == before + [last];
        if q in ProblemsOf(tx, program, before) {
          var l :| l in before && ProblemOf(tx, program, l) == Some(q);
          assert l in ls;
        }
        if l :| l in ls && ProblemOf(tx, program, l) == Some(q) { assert l == last || l in before; }
      }
    }
  }

  /** Exactly the events of the instructions that become one: each where its instruction stands, in that order. */
  ghost predicate AreTheEvents(tx: Transaction, program: string, all: seq<Located>, events: seq<Event>) {
    && Increasing(events)
    && (forall i :: 0 <= i < |events| ==>
          && events[i].position < |all| && events[i].outerIndex == all[events[i].position].outerIndex
          && Becomes(tx, program, all[events[i].position], events[i].body))
    && forall p, body :: 0 <= p < |all| && Becomes(tx, program, all[p], body) ==>
         exists i :: 0 <= i < |events| && events[i] == Event(p, all[p].outerIndex, body)
  }

  lemma {:induction false} EventsAreThose(tx: Transaction, program: string, all: seq<Located>, events: seq<Event>)
    requires AreEventsOf(tx, program, all, |all|, events)
    ensures AreTheEvents(tx, program, all, events)
  {
    hide EventOf, Becomes;
    forall i | 0 <= i < |events| ensures Becomes(tx, program, all[events[i].position], events[i].body) {
      EventOfSays(tx, program, all[events[i].position], events[i].body);
    }
    forall p, body | 0 <= p < |all| && Becomes(tx, program, all[p], body)
      ensures exists i :: 0 <= i < |events| && events[i] == Event(p, all[p].outerIndex, body)
    {
      EventOfSays(tx, program, all[p], body);
      var i :| 0 <= i < |events| && events[i].position == p;
      assert events[i] == Event(p, all[p].outerIndex, body);
    }
  }

  /** What is a problem of a transaction that went through: the program's data that reads as nothing. */
  ghost predicate IsProblem(program: string, l: Located, q: Problem) {
    && l.instruction.program == program
    && ((l.instruction.content.UnreadableEvent? && q == UnreadableAt(l.outerIndex))
        || (l.instruction.content.Unparsable? && q == UnparsableAt(l.outerIndex)))
  }

  lemma {:induction false} ProblemsSay(tx: Transaction, program: string, all: seq<Located>)
    requires tx.failure.Success?
    ensures forall q :: q in ProblemsOf(tx, program, all) <==> exists l :: l in all && IsProblem(program, l, q)
  {
    ProblemsAreTheirs(tx, program, all);
    assert forall l, q :: ProblemOf(tx, program, l) == Some(q) <==> IsProblem(program, l, q);
    hide ProblemOf, IsProblem;
  }

  lemma {:induction false} UnattributedSays(tx: Transaction, program: string, all: seq<Located>)
    requires tx.failure.InInstruction?
    ensures HasUnattributed(tx, program, all) <==>
              && !VisiblyOurs(tx, program)
              && exists l :: l in all && l.instruction.program == program && l.outerIndex == tx.failure.index
                             && l.instruction.content.ChargeAttempt?
  {
    RefusedMeansOurs(tx, program);
    hide RefusedByUs, VisiblyOurs;
    if l :| l in all && l.instruction.program == program && l.outerIndex == tx.failure.index
            && l.instruction.content.ChargeAttempt? {
      var k :| 0 <= k < |all| && all[k] == l;
      assert InFailed(tx, program, all[k]);
    }
  }

  /** A charge of the failed instruction's that our program did not visibly refuse. */
  ghost predicate HasUnattributed(tx: Transaction, program: string, all: seq<Located>) {
    && !RefusedByUs(tx, program)
    && exists k :: 0 <= k < |all| && InFailed(tx, program, all[k]) && all[k].instruction.content.ChargeAttempt?
  }

  ghost predicate Increasing(events: seq<Event>) {
    forall i, j :: 0 <= i < j < |events| ==> events[i].position < events[j].position
  }

  /** `events` are those of the first `n` instructions: each where it stands, none twice, none missing. */
  ghost predicate AreEventsOf(tx: Transaction, program: string, all: seq<Located>, n: nat, events: seq<Event>)
    requires n <= |all|
  {
    && Increasing(events)
    && (forall i :: 0 <= i < |events| ==>
          && events[i].position < n
          && events[i].outerIndex == all[events[i].position].outerIndex
          && EventOf(tx, program, all[events[i].position]) == Some(events[i].body))
    && (forall p :: 0 <= p < n && EventOf(tx, program, all[p]).Some? ==>
          exists i :: 0 <= i < |events| && events[i].position == p)
  }

  lemma {:induction false} OneMoreEvent(tx: Transaction, program: string, all: seq<Located>, n: nat, events: seq<Event>)
    requires n < |all| && AreEventsOf(tx, program, all, n, events)
    ensures var body := EventOf(tx, program, all[n]);
            AreEventsOf(tx, program, all, n + 1,
              if body.Some? then events + [Event(n, all[n].outerIndex, body.value)] else events)
  {
    var body := EventOf(tx, program, all[n]);
    var next := if body.Some? then events + [Event(n, all[n].outerIndex, body.value)] else events;
    forall p | 0 <= p < n + 1 && EventOf(tx, program, all[p]).Some?
      ensures exists i :: 0 <= i < |next| && next[i].position == p
    {
      if p == n {
        assert next[|events|].position == p;
      } else {
        var i :| 0 <= i < |events| && events[i].position == p;
        assert next[i].position == p;
      }
    }
  }

  /** The events of the first `n + 1` instructions are those of the first `n`, and the last one's own. */
  lemma {:induction false} OneEventLess(tx: Transaction, program: string, all: seq<Located>, n: nat, events: seq<Event>)
    requires n < |all| && AreEventsOf(tx, program, all, n + 1, events)
    ensures var body := EventOf(tx, program, all[n]);
            if body.Some?
            then events != [] && events[|events| - 1] == Event(n, all[n].outerIndex, body.value)
                 && AreEventsOf(tx, program, all, n, events[..|events| - 1])
            else AreEventsOf(tx, program, all, n, events)
  {
    hide EventOf;
    var last := |events| - 1;
    if EventOf(tx, program, all[n]).Some? {
      var k :| 0 <= k < |events| && events[k].position == n;
      assert forall i :: 0 <= i < last ==> events[i].position < events[last].position <= n;
      assert k == last;
      var before := events[..last];
      forall p | 0 <= p < n && EventOf(tx, program, all[p]).Some?
        ensures exists i :: 0 <= i < |before| && before[i].position == p
      {
        var i :| 0 <= i < |events| && events[i].position == p;
        assert i < last && before[i].position == p;
      }
    } else {
      forall i | 0 <= i < |events| ensures events[i].position < n {
        assert EventOf(tx, program, all[events[i].position]) == Some(events[i].body);
      }
    }
  }

  lemma {:induction false} StandsBefore(tx: Transaction, program: string, all: seq<Located>, n: nat, events: seq<Event>, i: nat)
    requires n <= |all| && AreEventsOf(tx, program, all, n, events) && i < |events|
    ensures events[i].position < n
  {
  }

  lemma {:induction false} NoneYet(tx: Transaction, program: string, all: seq<Located>, events: seq<Event>)
    requires AreEventsOf(tx, program, all, 0, events)
    ensures events == []
  {
    if events != [] { StandsBefore(tx, program, all, 0, events, 0); }
  }

  lemma {:induction false} SameWithLast(a: seq<Event>, b: seq<Event>)
    requires a != [] && b != [] && a[..|a| - 1] == b[..|b| - 1] && a[|a| - 1] == b[|b| - 1]
    ensures a == b
  {
    assert a == a[..|a| - 1] + [a[|a| - 1]];
    assert b == b[..|b| - 1] + [b[|b| - 1]];
  }

  /** A replayed transaction decodes to the same events: the specification leaves no choice. */
  lemma {:induction false} DecodingIsDeterministic(tx: Transaction, program: string, all: seq<Located>, n: nat,
                                                   a: seq<Event>, b: seq<Event>)
    requires n <= |all| && AreEventsOf(tx, program, all, n, a) && AreEventsOf(tx, program, all, n, b)
    ensures a == b
    decreases n
  {
    hide AreEventsOf, EventOf;
    if n == 0 {
      NoneYet(tx, program, all, a);
      NoneYet(tx, program, all, b);
    } else {
      OneEventLess(tx, program, all, n - 1, a);
      OneEventLess(tx, program, all, n - 1, b);
      if EventOf(tx, program, all[n - 1]).Some? {
        DecodingIsDeterministic(tx, program, all, n - 1, a[..|a| - 1], b[..|b| - 1]);
        SameWithLast(a, b);
      } else {
        DecodingIsDeterministic(tx, program, all, n - 1, a, b);
      }
    }
  }

  /** Called through another program, the failure is ours only if our program logged it. */
  method FailureIsOurs(tx: Transaction, program: string, all: seq<Located>) returns (ours: bool)
    requires all == AllFrom(tx, 0)
    ensures ours <==> RefusedByUs(tx, program)
  {
    hide AllFrom;
    ours := tx.logsNameUs;
    for p := 0 to |all|
      invariant ours <==> (tx.logsNameUs || exists k :: 0 <= k < p && InFailed(tx, program, all[k]) && !all[k].inner)
    {
      if InFailed(tx, program, all[p]) && !all[p].inner { ours := true; }
    }
    assert forall k :: 0 <= k < |all| ==> all[k] in all;
  }

  lemma {:induction false} FailedEventOf(tx: Transaction, program: string, l: Located)
    requires tx.failure.InInstruction?
    ensures EventOf(tx, program, l)
            == if InFailed(tx, program, l) && l.instruction.content.ChargeAttempt? && RefusedByUs(tx, program)
               then Some(Rejected(l.instruction.content.allowance, l.instruction.content.attempted)) else None
    ensures InFailed(tx, program, l) ==> l.outerIndex == tx.failure.index
  {
  }

  /** A failed transaction rolled everything back: all that is left is the refused charge. */
  method DecodeFailed(tx: Transaction, program: string, all: seq<Located>)
    returns (events: seq<Event>, problems: seq<Problem>)
    requires all == AllFrom(tx, 0) && tx.failure.InInstruction?
    ensures AreEventsOf(tx, program, all, |all|, events)
    ensures problems == if HasUnattributed(tx, program, all) then [Unattributed(tx.failure.index)] else []
  {
    hide AllFrom, RefusedByUs, AreEventsOf, EventOf, ProblemOf, InFailed;
    events, problems := [], [];
    var refusedByUs := FailureIsOurs(tx, program, all);
    NoEventsYet(tx, program, all);
    for p := 0 to |all|
      invariant AreEventsOf(tx, program, all, p, events)
      invariant !refusedByUs ==> forall k :: 0 <= k < p && InFailed(tx, program, all[k]) ==>
                  !all[k].instruction.content.ChargeAttempt?
    {
      OneMoreEvent(tx, program, all, p, events);
      FailedEventOf(tx, program, all[p]);
      if InFailed(tx, program, all[p]) && all[p].instruction.content.ChargeAttempt? {
        if !refusedByUs {
          problems := [Unattributed(tx.failure.index)];
          NothingIsOurs(tx, program, all, p, events);
          return;
        }
        var attempt := all[p].instruction.content;
        events := events + [Event(p, tx.failure.index, Rejected(attempt.allowance, attempt.attempted))];
      }
    }
  }

  method DecodeSucceeded(tx: Transaction, program: string, all: seq<Located>)
    returns (events: seq<Event>, problems: seq<Problem>)
    requires all == AllFrom(tx, 0) && tx.failure.Success?
    ensures AreEventsOf(tx, program, all, |all|, events)
    ensures problems == ProblemsOf(tx, program, all)
  {
    events, problems := [], [];
    hide AreEventsOf;
    assert AreEventsOf(tx, program, all, 0, events) by { NoEventsYet(tx, program, all); }
    for p := 0 to |all|
      invariant AreEventsOf(tx, program, all, p, events)
      invariant problems == ProblemsOf(tx, program, all[..p])
    {
      OneMoreEvent(tx, program, all, p, events);
      assert all[..p + 1][..p] == all[..p];
      var l := all[p];
      if l.instruction.program == program {
        match l.instruction.content {
          case EventData(body) => events := events + [Event(p, l.outerIndex, body)];
          case UnreadableEvent => problems := problems + [UnreadableAt(l.outerIndex)];
          case Unparsable => problems := problems + [UnparsableAt(l.outerIndex)];
          case Change(body) => events := events + [Event(p, l.outerIndex, body)];
          case _ =>
        }
      }
    }
    assert all[..|all|] == all;
  }

  lemma {:induction false} NoEventsYet(tx: Transaction, program: string, all: seq<Located>)
    ensures AreEventsOf(tx, program, all, 0, [])
  {
  }

  /**
   * The decoder's two loops. Every event stands at its own instruction's position, no
   * two at the same; every instruction that should become an event does; tagged or
   * unparsable data of ours is a named problem, and a charge whose refusal cannot be
   * told to be ours is one too. No other problem is named.
   */
  method DecodeTransaction(tx: Transaction, program: string) returns (events: seq<Event>, problems: seq<Problem>)
    ensures AreEventsOf(tx, program, AllFrom(tx, 0), |AllFrom(tx, 0)|, events)
    ensures tx.failure.Success? ==>
              && problems == ProblemsOf(tx, program, AllFrom(tx, 0))
              && forall q :: q in problems <==> exists l :: l in AllFrom(tx, 0) && ProblemOf(tx, program, l) == Some(q)
    ensures tx.failure.InInstruction? ==>
              problems == if HasUnattributed(tx, program, AllFrom(tx, 0)) then [Unattributed(tx.failure.index)] else []
    ensures tx.failure.Elsewhere? ==> events == [] && problems == []
    ensures AreTheEvents(tx, program, AllFrom(tx, 0), events)
    ensures tx.failure.Success? ==>
              forall q :: q in problems <==> exists l :: l in AllFrom(tx, 0) && IsProblem(program, l, q)
    ensures tx.failure.InInstruction? ==>
              (problems != [] <==> !VisiblyOurs(tx, program)
                                   && exists l :: l in AllFrom(tx, 0) && l.instruction.program == program
                                                  && l.outerIndex == tx.failure.index && l.instruction.content.ChargeAttempt?)
  {
    var all := AllInstructions(tx);
    match tx.failure {
      case Elsewhere =>
        events, problems := [], [];
      case InInstruction(_) =>
        events, problems := DecodeFailed(tx, program, all);
        UnattributedSays(tx, program, all);
      case Success =>
        events, problems := DecodeSucceeded(tx, program, all);
        ProblemsAreTheirs(tx, program, all);
        ProblemsSay(tx, program, all);
    }
    EventsAreThose(tx, program, all, events);
  }

  lemma {:induction false} NothingIsOurs(tx: Transaction, program: string, all: seq<Located>, p: nat, events: seq<Event>)
    requires all == AllFrom(tx, 0) && p < |all| && tx.failure.InInstruction? && !RefusedByUs(tx, program)
    requires AreEventsOf(tx, program, all, p, events)
    ensures AreEventsOf(tx, program, all, |all|, events)
  {
  }
}
