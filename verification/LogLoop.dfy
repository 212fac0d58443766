/**
 * The loop's own code - the recent-signature set, the paging of a catch-up, the
 * handling of one transaction and the replay - against the machine of `LogIndexer`.
 */
module LogLoop {
  import opened Shared
  import opened LogIndexer
  import opened LogProgress

  ghost predicate Distinct(s: seq<nat>) {
    forall i, j :: 0 <= i < j < |s| ==> s[i] != s[j]
  }

  class RecentSignatures {
    var order: seq<nat>
    var known: set<nat>

    ghost predicate Valid()
      reads this
    {
      && |order| <= RECENT_CAPACITY
      && Distinct(order)
      && (forall p :: p in known <==> p in order)
    }

    constructor ()
      ensures Valid() && order == []
    {
      order, known := [], {};
    }

    method Has(p: nat) returns (found: bool)
      requires Valid()
      ensures found <==> p in order
    {
      found := p in known;
    }

    method Add(p: nat)
      requires Valid()
      modifies this
      ensures Valid() && order == RecentAdd(old(order), p)
    {
      if p in known { return; }
      known := known + {p};
      order := order + [p];
      if |order| > RECENT_CAPACITY {
        var oldest := order[0];
        order := order[1..];
        known := known - {oldest};
        assert order == old(order)[1..] + [p];
      }
    }
  }

  /** `hi - 1, hi - 2, .. , lo`: how the node lists history, newest first. */
  function Descending(lo: nat, hi: nat): seq<nat>
    requires lo <= hi
  {
    seq(hi - lo, i requires 0 <= i < hi - lo => hi - 1 - i)
  }

  /** One page: newer than `until`, older than `before`, at most `CATCH_UP_PAGE`. */
  function Page(head: nat, until: nat, before: Option<nat>): seq<nat>
    requires before.Some? ==> before.value <= head
  {
    var top := if before.Some? then before.value else head;
    var lo := if top > until + 1 + CATCH_UP_PAGE then top - CATCH_UP_PAGE else until + 1;
    if top <= until + 1 then [] else Descending(lo, top)
  }

  /**
   * The paging of `catchUp`. `heads[k]` is how long the history is when page `k` is
   * asked for: it may grow between pages. The result is the whole gap up to the
   * first page's head, or its newest `CATCH_UP_DEPTH` with the rest named.
   */
  method CollectMissed(from: nat, heads: seq<nat>) returns (missed: seq<nat>, gap: Option<nat>)
    requires |heads| == CATCH_UP_MAX_PAGES
    requires forall i, j :: 0 <= i <= j < |heads| ==> heads[i] <= heads[j]
    requires from < heads[0]
    ensures missed == Descending(Reach(from, heads[0]), heads[0])
    ensures |missed| == (if heads[0] - from - 1 < 10_000 then heads[0] - from - 1 else 10_000)
            && forall i :: 0 <= i < |missed| ==> missed[i] == heads[0] - 1 - i
    ensures gap.Some? <==> heads[0] - (from + 1) >= CATCH_UP_DEPTH
    ensures gap.Some? ==> gap.value == Reach(from, heads[0])
  {
    var head := heads[0];
    missed := [];
    var before: Option<nat> := None;
    var page := 0;
    while page < CATCH_UP_MAX_PAGES
      invariant 0 <= page <= CATCH_UP_MAX_PAGES
      invariant from + 1 + page * CATCH_UP_PAGE <= head
      invariant missed == Descending(head - page * CATCH_UP_PAGE, head)
      invariant page == 0 ==> before.None?
      invariant page > 0 ==> before == Some(head - page * CATCH_UP_PAGE)
    {
      var batch := Page(heads[page], from, before);
      missed := missed + batch;
      if |batch| < CATCH_UP_PAGE {
        return missed, None;
      }
      before := Some(batch[|batch| - 1]);
      page := page + 1;
    }
    gap := before;
  }

  function Replays(outcomes: seq<Outcome>): seq<Event> {
    seq(|outcomes|, i requires 0 <= i < |outcomes| => ReplayNext(outcomes[i]))
  }

  class LogProcess {
    const recent: RecentSignatures
    var slots: seq<nat>
    var stored: set<nat>
    var reported: set<nat>
    var cursor: Option<nat>
    var last: Option<nat>
    var conn: Conn
    var task: Task
    var queued: Option<nat>
    ghost var floor: int

    ghost function View(): State
      reads this, recent
    {
      State(slots, stored, reported, cursor, last, recent.order, conn, task, queued, floor)
    }

    ghost predicate Valid()
      reads this, recent
    {
      recent.Valid() && InHistory(View())
    }

    constructor ()
      ensures Valid() && fresh(recent) && View() == Init()
    {
      recent := new RecentSignatures();
      slots, stored, reported, cursor, last := [], {}, {}, None, None;
      conn, task, queued, floor := Down, NoTask, None, -1;
    }

    /** `handle`: skipped when recent, else read and stored; `ok` is false when it throws. */
    method HandleItem(p: nat, outcome: Outcome) returns (ok: bool)
      requires Valid() && p < |slots|
      modifies this, recent
      ensures Valid() && (View(), ok) == Handle(old(View()), p, outcome)
      ensures p in old(recent.order) ==> View() == old(View()) && ok
      ensures p !in old(recent.order) ==> Leaves(old(View()), View(), p, outcome, ok)
    {
      HandleLeaves(View(), p, outcome);
      hide RecentSignatures.Valid, RecentAdd;
      var seen := recent.Has(p);
      if seen { return true; }
      match outcome {
        case ReadThrew => return false;
        case SinkThrew(committed) =>
          if committed {
            stored := stored + {p};
            MoveCursor(p);
          }
          return false;
        case Stored =>
          stored := stored + {p};
          MoveCursor(p);
        case Skipped =>
          reported := reported + {p};
      }
      recent.Add(p);
      if last.None? || slots[p] >= slots[last.value] { last := Some(p); }
      return true;
    }

    /** One notification of the live stream; a throw closes the connection. */
    method DeliverNext(outcome: Outcome)
      requires Valid() && conn.Live? && task == NoTask && conn.next < |slots|
      modifies this, recent
      ensures Valid() && View() == Step(old(View()), Deliver(outcome))
    {
      hide RecentSignatures.Valid, RecentAdd;
      var next := conn.next;
      var ok := HandleItem(next, outcome);
      conn := if ok then Live(next + 1) else Closing;
    }

    /** The stored cursor's upsert: it never moves back in slots. */
    method MoveCursor(p: nat)
      requires Valid() && p < |slots|
      modifies this`cursor
      ensures cursor == Forward(slots, old(cursor), p) && cursor.Some? && cursor.value < |slots|
      ensures slots[cursor.value] >= slots[p] && (old(cursor).Some? ==> slots[old(cursor).value] <= slots[cursor.value])
    {
      if cursor.None? || slots[p] >= slots[cursor.value] { cursor := Some(p); }
    }

    /**
     * `catchUp` from `from`, as the catch-up after a connect or as a sweep: names what
     * is out of reach, then handles the rest oldest first until one throws.
     */
    method CatchUp(from: nat, sweep: bool, heads: seq<nat>, outcomes: seq<Outcome>)
      requires Valid() && task == NoTask
      requires if sweep then queued == Some(from) && (conn.Live? || conn.Closing?)
               else last == Some(from) && conn.Opened?
      requires |heads| == CATCH_UP_MAX_PAGES && heads[0] == |slots|
      requires forall i, j :: 0 <= i <= j < |heads| ==> heads[i] <= heads[j]
      requires |outcomes| == |slots| - Reach(from, |slots|)
      modifies this, recent
      ensures Valid()
      ensures View() == Run(old(View()), [if sweep then SweepRead else CatchUpRead] + Replays(outcomes))
    {
      ghost var was := View();
      ghost var read := if sweep then SweepRead else CatchUpRead;
      var missed, gap := CollectMissed(from, heads);
      if gap.Some? { reported := reported + Between(from, gap.value); }
      else { assert Between(from, Reach(from, |slots|)) == {}; }
      task := Replaying(Reach(from, |slots|), |slots|, sweep);
      if sweep { queued := None; }
      assert View() == Step(was, read);
      ghost var begun := View();
      hide Step;
      Replay(missed, outcomes);
      assert ([read] + Replays(outcomes))[1..] == Replays(outcomes);
    }

    /** One turn of that loop; a throw ends the replay, and the connection unless it is a sweep. */
    method ReplayItem(p: nat, outcome: Outcome) returns (ok: bool)
      requires Valid() && task.Replaying? && p == task.next < task.end
      modifies this, recent
      ensures Valid()
      ensures View() == Step(old(View()), ReplayNext(outcome))
      ensures task == if ok then old(task).(next := p + 1) else NoTask
    {
      hide Step, Handle, RecentSignatures.Valid;
      ghost var before := View();
      ok := HandleItem(p, outcome);
      if ok {
        task := task.(next := task.next + 1);
      } else {
        if !task.sweep { conn := Down; }
        task := NoTask;
      }
      ReplayStep(before, outcome);
    }

    /** The loop of `catchUp` over what was missed, oldest first, until one throws. */
    method Replay(missed: seq<nat>, outcomes: seq<Outcome>)
      requires Valid() && task.Replaying? && |missed| == |outcomes|
      requires missed == Descending(task.next, task.end)
      modifies this, recent
      ensures Valid()
      ensures View() == Run(old(View()), Replays(outcomes))
    {
      ghost var begun := View();
      hide Step, RecentSignatures.Valid;
      var done := 0;
      while done < |missed|
        invariant 0 <= done <= |missed|
        invariant Valid()
        invariant View() == Run(begun, Replays(outcomes[..done]))
        invariant task == begun.task.(next := begun.task.next + done)
      {
        var ok := ReplayItem(missed[|missed| - 1 - done], outcomes[done]);
        ReplayOneMore(begun, outcomes, done);
        done := done + 1;
        if !ok {
          ReplayStopped(begun, outcomes, done);
          return;
        }
      }
      assert outcomes[..done] == outcomes;
    }
  }

  lemma {:induction false} ReplayStep(s: State, outcome: Outcome)
    requires InHistory(s) && s.task.Replaying? && s.task.next < s.task.end
    ensures var (t, ok) := Handle(s, s.task.next, outcome);
            Step(s, ReplayNext(outcome)) ==
              if ok then t.(task := s.task.(next := s.task.next + 1))
              else if s.task.sweep then t.(task := NoTask) else t.(task := NoTask, conn := Down)
  {
  }

  lemma {:induction false} ReplayOneMore(s: State, outcomes: seq<Outcome>, k: nat)
    requires InHistory(s) && k < |outcomes|
    ensures Run(s, Replays(outcomes[..k + 1])) ==
              Step(Run(s, Replays(outcomes[..k])), ReplayNext(outcomes[k]))
  {
    hide Step;
    assert Replays(outcomes[..k + 1]) == Replays(outcomes[..k]) + [ReplayNext(outcomes[k])];
    RunAppend(s, Replays(outcomes[..k]), [ReplayNext(outcomes[k])]);
    var t := Run(s, Replays(outcomes[..k]));
    assert Run(t, [ReplayNext(outcomes[k])]) == Run(Step(t, ReplayNext(outcomes[k])), []);
  }

  lemma {:induction false} ReplayStopped(s: State, outcomes: seq<Outcome>, k: nat)
    requires InHistory(s) && k <= |outcomes|
    requires Run(s, Replays(outcomes[..k])).task == NoTask
    ensures Run(s, Replays(outcomes)) == Run(s, Replays(outcomes[..k]))
    decreases |outcomes| - k
  {
    if k < |outcomes| {
      ReplayOneMore(s, outcomes, k);
      ReplayStopped(s, outcomes, k + 1);
    } else {
      assert outcomes[..k] == outcomes;
    }
  }
}
