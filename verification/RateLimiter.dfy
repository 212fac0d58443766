/**
 * The sliding-window limiter: pruned per-key windows and a periodic sweep, against the
 * full log of every admitted request.
 */
module RateLimiter {

  const SWEEP_EVERY: nat := 512

  datatype Request = Request(key: string, at: int)

  function Max(a: int, b: int): int {
    if a < b then b else a
  }

  /** The marks younger than the window. */
  function Alive(log: seq<int>, threshold: int): seq<int> {
    if log == [] then []
    else (if log[0] > threshold then [log[0]] else []) + Alive(log[1..], threshold)
  }

  /** The rule on the full log of one key. */
  predicate Admits(log: seq<int>, at: int, limit: int, windowMs: nat) {
    var alive := Alive(log, at - windowMs);
    |alive| < limit || alive == []
  }

  /** Every admitted request of `key`, nothing ever pruned. */
  function FullLog(requests: seq<Request>, key: string, limit: int, windowMs: nat): seq<int> {
    if requests == [] then []
    else
      var before := FullLog(requests[..|requests| - 1], key, limit, windowMs);
      var last := requests[|requests| - 1];
      if last.key == key && Admits(before, last.at, limit, windowMs) then before + [last.at] else before
  }

  ghost predicate Ordered(requests: seq<Request>) {
    forall i, j :: 0 <= i < j < |requests| ==> requests[i].at <= requests[j].at
  }

  ghost predicate Sorted(log: seq<int>) {
    forall i, j :: 0 <= i < j < |log| ==> log[i] <= log[j]
  }

  /** Of a sorted log, the alive marks are a suffix. */
  lemma {:induction false} AliveIsSuffix(log: seq<int>, threshold: int, from: nat)
    requires Sorted(log) && from <= |log|
    requires forall i :: 0 <= i < from ==> log[i] <= threshold
    requires from < |log| ==> log[from] > threshold
    ensures Alive(log, threshold) == log[from..]
    decreases |log|
  {
    if from > 0 {
      AliveIsSuffix(log[1..], threshold, from - 1);
    } else if log != [] {
      if |log| > 1 { assert log[0] <= log[1]; }
      AliveIsSuffix(log[1..], threshold, 0);
      assert log == [log[0]] + log[1..];
    }
  }

  lemma {:induction false} FirstAlive(log: seq<int>, threshold: int) returns (from: nat)
    requires Sorted(log)
    ensures from <= |log| && Alive(log, threshold) == log[from..]
    ensures forall i :: 0 <= i < from ==> log[i] <= threshold
    ensures forall i :: from <= i < |log| ==> log[i] > threshold
  {
    from := 0;
    while from < |log| && log[from] <= threshold
      invariant from <= |log| && forall i :: 0 <= i < from ==> log[i] <= threshold
    {
      from := from + 1;
    }
    AliveIsSuffix(log, threshold, from);
  }

  // ---------------------------------------------------------------- what the full log keeps

  /** `limit` requests later, a whole window has passed. */
  ghost predicate Spaced(log: seq<int>, limit: int, windowMs: nat) {
    forall i, j :: 0 <= i && i + Max(limit, 1) <= j < |log| ==> log[i] + windowMs <= log[j]
  }

  ghost predicate AllBy(log: seq<int>, at: int) {
    forall i :: 0 <= i < |log| ==> log[i] <= at
  }

  lemma {:induction false} MarkIsSpaced(log: seq<int>, at: int, limit: int, windowMs: nat)
    requires Sorted(log) && Spaced(log, limit, windowMs) && AllBy(log, at) && Admits(log, at, limit, windowMs)
    ensures Sorted(log + [at]) && Spaced(log + [at], limit, windowMs) && AllBy(log + [at], at)
  {
    var from := FirstAlive(log, at - windowMs);
    forall i | 0 <= i && i + Max(limit, 1) <= |log| ensures log[i] + windowMs <= at {
      assert i < from;
    }
  }

  lemma {:induction false} LogIsSpaced(requests: seq<Request>, key: string, limit: int, windowMs: nat)
    requires Ordered(requests)
    ensures var log := FullLog(requests, key, limit, windowMs);
            && Sorted(log) && Spaced(log, limit, windowMs)
            && (requests == [] ==> log == [])
            && (requests != [] ==> AllBy(log, requests[|requests| - 1].at))
  {
    hide Sorted, Spaced, Admits;
    if requests != [] {
      var n := |requests| - 1;
      var last := requests[n];
      LogIsSpaced(requests[..n], key, limit, windowMs);
      var before := FullLog(requests[..n], key, limit, windowMs);
      assert AllBy(before, last.at) by {
        assert n > 0 ==> requests[n - 1].at <= last.at;
      }
      if last.key == key && Admits(before, last.at, limit, windowMs) {
        MarkIsSpaced(before, last.at, limit, windowMs);
      }
    } else {
      EmptyIsSpaced(limit, windowMs);
    }
  }

  lemma {:induction false} EmptyIsSpaced(limit: int, windowMs: nat)
    ensures Sorted([]) && Spaced([], limit, windowMs)
  {
  }

  function InWindow(log: seq<int>, start: int, windowMs: nat): nat {
    if log == [] then 0
    else (if start <= log[0] < start + windowMs then 1 else 0) + InWindow(log[1..], start, windowMs)
  }

  lemma {:induction false} WindowIsSlice(log: seq<int>, start: int, windowMs: nat, max: nat)
    requires Sorted(log) && 1 <= max
    requires forall i, j :: 0 <= i && i + max <= j < |log| ==> log[i] + windowMs <= log[j]
    ensures InWindow(log, start, windowMs) <= max
    decreases |log|
  {
    if log != [] {
      if start <= log[0] < start + windowMs {
        AtMost(log, start, windowMs, max);
      } else {
        assert forall i, j :: 0 <= i && i + max <= j < |log[1..]| ==> log[1..][i] == log[i + 1] && log[1..][j] == log[j + 1];
        WindowIsSlice(log[1..], start, windowMs, max);
      }
    }
  }

  /** From its first mark in the window on, only the next `max` can be in it. */
  lemma {:induction false} AtMost(log: seq<int>, start: int, windowMs: nat, max: nat)
    requires Sorted(log)
    requires forall j :: max <= j < |log| ==> start + windowMs <= log[j]
    ensures InWindow(log, start, windowMs) <= max
    decreases |log|
  {
    if log != [] {
      if max == 0 { assert start + windowMs <= log[0]; }
      AtMost(log[1..], start, windowMs, if max == 0 then 0 else max - 1);
    }
  }

  /**
   * With a clock that never goes back, any window of `windowMs`, wherever it starts,
   * holds at most `limit` admitted requests of a key - one, if the limit is below one.
   */
  lemma {:induction false} AnyWindowHoldsAtMostLimit(requests: seq<Request>, key: string, limit: int, windowMs: nat, start: int)
    requires Ordered(requests)
    ensures InWindow(FullLog(requests, key, limit, windowMs), start, windowMs) <= Max(limit, 1)
  {
    LogIsSpaced(requests, key, limit, windowMs);
    WindowIsSlice(FullLog(requests, key, limit, windowMs), start, windowMs, Max(limit, 1));
  }

  /** A limit below one is a limit of one: a request that finds its window empty is admitted. */
  lemma {:induction false} BoundHoldsIffLimitIsPositive(limit: int, windowMs: nat)
    requires windowMs > 0
    ensures (forall requests, key, start :: Ordered(requests) ==>
               InWindow(FullLog(requests, key, limit, windowMs), start, windowMs) <= limit)
            <==> limit >= 1
  {
    if limit >= 1 {
      forall requests, key, start | Ordered(requests)
        ensures InWindow(FullLog(requests, key, limit, windowMs), start, windowMs) <= limit
      {
        AnyWindowHoldsAtMostLimit(requests, key, limit, windowMs, start);
      }
    } else {
      var one := [Request("k", 0)];
      assert Ordered(one);
      assert FullLog(one, "k", limit, windowMs) == [0] by {
        assert one[..0] == [] && FullLog(one[..0], "k", limit, windowMs) == [];
      }
      assert InWindow([0], 0, windowMs) == 1 by { assert InWindow([0][1..], 0, windowMs) == 0; }
      assert InWindow(FullLog(one, "k", limit, windowMs), 0, windowMs) == 1;
    }
  }

  // ---------------------------------------------------------------- the advice

  /** `Retry-After`, in seconds: up to when the oldest mark leaves the window. */
  function RetrySeconds(oldest: int, at: int, windowMs: nat): int {
    Max(1, (oldest + windowMs - at + 999) / 1000)
  }

  /** A refusal finds exactly `limit` marks alive; they are the last of the log. */
  lemma {:induction false} RefusedIsFull(log: seq<int>, limit: int, windowMs: nat, at: int, from: nat)
    requires Sorted(log) && Spaced(log, limit, windowMs) && AllBy(log, at)
    requires from <= |log| && Alive(log, at - windowMs) == log[from..]
    requires forall i :: 0 <= i < from ==> log[i] <= at - windowMs
    requires forall i :: from <= i < |log| ==> log[i] > at - windowMs
    requires !Admits(log, at, limit, windowMs)
    ensures from < |log| && (limit >= 1 ==> |log| - from == limit)
  {
    if limit >= 1 && |log| > limit {
      assert log[|log| - 1 - limit] + windowMs <= log[|log| - 1];
      assert |log| - 1 - limit < from;
    }
  }

  /**
   * A refused client that waits with no other request of its key is admitted exactly when
   * the oldest mark has left the window: so the advertised time is always enough, and one
   * whole second less never is, unless that is no wait at all.
   */
  lemma {:induction false} RetryAfterAlwaysAdmits(requests: seq<Request>, key: string, limit: int, windowMs: nat, at: int, later: int)
    requires Ordered(requests) && (requests != [] ==> requests[|requests| - 1].at <= at) && at <= later
    requires !Admits(FullLog(requests, key, limit, windowMs), at, limit, windowMs)
    ensures var log := FullLog(requests, key, limit, windowMs);
            var alive := Alive(log, at - windowMs);
            && alive != []
            && FullLog(requests + [Request(key, at)], key, limit, windowMs) == log
            && (limit >= 1 ==>
                  && (Admits(log, later, limit, windowMs) <==> alive[0] + windowMs <= later)
                  && (later >= at + 1000 * RetrySeconds(alive[0], at, windowMs) ==> Admits(log, later, limit, windowMs))
                  && (later <= at + 1000 * (RetrySeconds(alive[0], at, windowMs) - 1) && at < later
                      ==> !Admits(log, later, limit, windowMs)))
  {
    var log := FullLog(requests, key, limit, windowMs);
    OneMoreRequest(requests, key, at, key, limit, windowMs);
    LogIsSpaced(requests, key, limit, windowMs);
    assert AllBy(log, at);
    hide FullLog, Alive, Ordered, Sorted;
    var from := FirstAlive(log, at - windowMs);
    var laterFrom := FirstAlive(log, later - windowMs);
    RefusedIsFull(log, limit, windowMs, at, from);
    hide Spaced, AllBy;
    assert Alive(log, at - windowMs)[0] == log[from];
  }

  // ---------------------------------------------------------------- what may be forgotten

  /** What is kept of a log is its end, and what was dropped had left the window. */
  ghost predicate Keeps(log: seq<int>, kept: seq<int>, threshold: int) {
    && Sorted(log) && |kept| <= |log| && kept == log[|log| - |kept|..]
    && forall i :: 0 <= i < |log| - |kept| ==> log[i] <= threshold
  }

  lemma {:induction false} KeptIsSorted(log: seq<int>, kept: seq<int>, threshold: int)
    requires Keeps(log, kept, threshold)
    ensures Sorted(kept)
  {
    forall i, j | 0 <= i < j < |kept| ensures kept[i] <= kept[j] {
      assert log[|log| - |kept| + i] <= log[|log| - |kept| + j];
    }
  }

  lemma {:induction false} PruningKeeps(log: seq<int>, kept: seq<int>, before: int, threshold: int)
    requires Keeps(log, kept, before) && before <= threshold
    ensures Sorted(kept)
    ensures Alive(kept, threshold) == Alive(log, threshold)
    ensures Keeps(log, Alive(kept, threshold), threshold)
    ensures Keeps(log, kept, threshold)
  {
    KeptIsSorted(log, kept, before);
    hide Sorted, Alive;
    var dropped := |log| - |kept|;
    var from := FirstAlive(log, threshold);
    assert from < |log| ==> log[from] > threshold;
    assert dropped <= from;
    SuffixAlive(log, kept, dropped, from, threshold);
  }

  lemma {:induction false} SuffixAlive(log: seq<int>, kept: seq<int>, dropped: nat, from: nat, threshold: int)
    requires dropped <= from <= |log| && kept == log[dropped..] && Sorted(kept)
    requires forall i :: 0 <= i < from ==> log[i] <= threshold
    requires forall i :: from <= i < |log| ==> log[i] > threshold
    ensures Alive(kept, threshold) == log[from..]
  {
    hide Sorted, Alive;
    assert log[from..] == kept[from - dropped..];
    forall i | 0 <= i < from - dropped ensures kept[i] <= threshold { assert kept[i] == log[dropped + i]; }
    assert from < |log| ==> kept[from - dropped] == log[from];
    AliveIsSuffix(kept, threshold, from - dropped);
  }

  lemma {:induction false} MarkKeeps(log: seq<int>, kept: seq<int>, threshold: int, at: int)
    requires Keeps(log, kept, threshold) && forall i :: 0 <= i < |log| ==> log[i] <= at
    ensures Keeps(log + [at], kept + [at], threshold)
  {
  }

  function WindowOf(windows: map<string, seq<int>>, key: string): seq<int> {
    if key in windows then windows[key] else []
  }

  ghost predicate AllKept(requests: seq<Request>, windows: map<string, seq<int>>, limit: int, windowMs: nat, threshold: int) {
    forall key :: Keeps(FullLog(requests, key, limit, windowMs), WindowOf(windows, key), threshold)
  }

  lemma {:induction false} KeptLater(requests: seq<Request>, windows: map<string, seq<int>>, limit: int, windowMs: nat,
                                     before: int, threshold: int)
    requires AllKept(requests, windows, limit, windowMs, before) && (before <= threshold || requests == [])
    ensures AllKept(requests, windows, limit, windowMs, threshold)
  {
    hide FullLog, Keeps, WindowOf;
    forall key ensures Keeps(FullLog(requests, key, limit, windowMs), WindowOf(windows, key), threshold) {
      assert Keeps(FullLog(requests, key, limit, windowMs), WindowOf(windows, key), before);
      if requests == [] {
        EmptyKeeps(key, limit, windowMs, WindowOf(windows, key), before, threshold);
      } else {
        PruningKeeps(FullLog(requests, key, limit, windowMs), WindowOf(windows, key), before, threshold);
      }
    }
  }

  lemma {:induction false} EmptyKeeps(key: string, limit: int, windowMs: nat, kept: seq<int>, before: int, threshold: int)
    requires Keeps(FullLog([], key, limit, windowMs), kept, before)
    ensures Keeps(FullLog([], key, limit, windowMs), kept, threshold)
  {
  }

  /** Pruning one key, whatever else is kept. */
  lemma {:induction false} PrunedKept(requests: seq<Request>, windows: map<string, seq<int>>, limit: int, windowMs: nat,
                                      threshold: int, key: string, next: map<string, seq<int>>)
    requires AllKept(requests, windows, limit, windowMs, threshold)
    requires WindowOf(next, key) == Alive(WindowOf(windows, key), threshold)
    requires forall other :: other != key ==> WindowOf(next, other) == WindowOf(windows, other)
    ensures AllKept(requests, next, limit, windowMs, threshold)
  {
    hide FullLog, Keeps, WindowOf, Alive;
    forall other ensures Keeps(FullLog(requests, other, limit, windowMs), WindowOf(next, other), threshold) {
      assert Keeps(FullLog(requests, other, limit, windowMs), WindowOf(windows, other), threshold);
      PruningKeeps(FullLog(requests, other, limit, windowMs), WindowOf(windows, other), threshold, threshold);
    }
  }

  lemma {:induction false} MarksArePast(requests: seq<Request>, key: string, limit: int, windowMs: nat, at: int)
    requires Ordered(requests) && (requests != [] ==> requests[|requests| - 1].at <= at)
    ensures var log := FullLog(requests, key, limit, windowMs); forall i :: 0 <= i < |log| ==> log[i] <= at
    ensures Ordered(requests + [Request(key, at)])
  {
    LogIsSpaced(requests, key, limit, windowMs);
  }

  lemma {:induction false} OneMoreRequest(requests: seq<Request>, key: string, at: int, other: string, limit: int, windowMs: nat)
    ensures var log := FullLog(requests, other, limit, windowMs);
            FullLog(requests + [Request(key, at)], other, limit, windowMs)
            == if other == key && Admits(log, at, limit, windowMs) then log + [at] else log
  {
    assert (requests + [Request(key, at)])[..|requests|] == requests;
  }

  /** The request itself, on what is already pruned. */
  lemma {:induction false} RequestKept(requests: seq<Request>, windows: map<string, seq<int>>, limit: int, windowMs: nat,
                                       key: string, at: int, next: map<string, seq<int>>)
    requires Ordered(requests) && (requests != [] ==> requests[|requests| - 1].at <= at)
    requires AllKept(requests, windows, limit, windowMs, at - windowMs)
    requires WindowOf(next, key)
             == WindowOf(windows, key) + if Admits(FullLog(requests, key, limit, windowMs), at, limit, windowMs) then [at] else []
    requires forall other :: other != key ==> WindowOf(next, other) == WindowOf(windows, other)
    ensures AllKept(requests + [Request(key, at)], next, limit, windowMs, at - windowMs)
  {
    MarksArePast(requests, key, limit, windowMs, at);
    hide Keeps, WindowOf, Admits, FullLog, Ordered;
    var all := requests + [Request(key, at)];
    forall other ensures Keeps(FullLog(all, other, limit, windowMs), WindowOf(next, other), at - windowMs) {
      var log, kept := FullLog(requests, other, limit, windowMs), WindowOf(windows, other);
      assert Keeps(log, kept, at - windowMs);
      OneMoreRequest(requests, key, at, other, limit, windowMs);
      if other == key && Admits(log, at, limit, windowMs) {
        MarkKeeps(log, kept, at - windowMs, at);
      } else {
        assert kept + [] == kept;
      }
    }
  }

  // ---------------------------------------------------------------- the middleware

  class Limiter {
    const limit: int
    const windowMs: nat
    var windows: map<string, seq<int>>
    var sinceSweep: nat
    ghost var requests: seq<Request>

    ghost predicate Valid()
      reads this
    {
      && Ordered(requests)
      && AllKept(requests, windows, limit, windowMs,
                 (if requests == [] then 0 else requests[|requests| - 1].at) - windowMs)
    }

    constructor (limit: int, windowMs: nat)
      ensures Valid() && requests == [] && this.limit == limit && this.windowMs == windowMs
    {
      this.limit, this.windowMs := limit, windowMs;
      windows, sinceSweep, requests := map[], 0, [];
    }

    /** Marks are appended in time order, so the first alive one starts the rest. */
    static method Prune(window: seq<int>, threshold: int) returns (alive: seq<int>)
      requires Sorted(window)
      ensures alive == Alive(window, threshold)
      ensures forall m :: m in alive <==> m in window && threshold < m
    {
      var firstAlive := 0;
      while firstAlive < |window| && window[firstAlive] <= threshold
        invariant 0 <= firstAlive <= |window| && forall i :: 0 <= i < firstAlive ==> window[i] <= threshold
      {
        firstAlive := firstAlive + 1;
      }
      AliveIsSuffix(window, threshold, firstAlive);
      alive := window[firstAlive..];
      assert forall i :: firstAlive <= i < |window| ==> threshold < window[i];
      assert window == window[..firstAlive] + alive;
    }

    /** A sweep forgets nothing that could still count. */
    method Sweep(threshold: int)
      requires AllKept(requests, windows, limit, windowMs, threshold)
      modifies this`windows
      ensures AllKept(requests, windows, limit, windowMs, threshold)
      ensures forall key :: key in windows ==> windows[key] != [] && forall m :: m in windows[key] ==> threshold < m
    {
      hide Keeps, FullLog, Sorted, Alive;
      var left := windows.Keys;
      while left != {}
        invariant left <= windows.Keys
        invariant AllKept(requests, windows, limit, windowMs, threshold)
        invariant forall key :: key in windows && key !in left ==>
                    windows[key] != [] && forall m :: m in windows[key] ==> threshold < m
        decreases |left|
      {
        var key :| key in left;
        left := left - {key};
        ghost var before := windows;
        assert Keeps(FullLog(requests, key, limit, windowMs), WindowOf(windows, key), threshold);
        PruningKeeps(FullLog(requests, key, limit, windowMs), windows[key], threshold, threshold);
        var alive := Prune(windows[key], threshold);
        windows := if alive == [] then windows - {key} else windows[key := alive];
        PrunedKept(requests, before, limit, windowMs, threshold, key, windows);
      }
    }

    /**
     * One request. Pruning and sweeping never change a decision: it is the full log's,
     * and so are the advertised seconds and what remains.
     */
    method Handle(key: string, at: int) returns (admitted: bool, remaining: int, retryAfter: int)
      requires Valid() && (requests != [] ==> requests[|requests| - 1].at <= at)
      modifies this
      ensures Valid() && requests == old(requests) + [Request(key, at)]
      ensures var log := FullLog(old(requests), key, limit, windowMs);
              && (admitted <==> Admits(log, at, limit, windowMs))
              && (admitted ==> remaining == limit - |Alive(log, at - windowMs)| - 1)
              && (!admitted ==> (var alive := Alive(log, at - windowMs);
                                 remaining == 0 && alive != [] && retryAfter == RetrySeconds(alive[0], at, windowMs)))
    {
      hide Keeps, FullLog, Sorted, Alive, AllKept, Ordered;
      ghost var log := FullLog(requests, key, limit, windowMs);
      KeptLater(requests, windows, limit, windowMs,
                (if requests == [] then 0 else requests[|requests| - 1].at) - windowMs, at - windowMs);
      sinceSweep := sinceSweep + 1;
      if sinceSweep >= SWEEP_EVERY {
        sinceSweep := 0;
        Sweep(at - windowMs);
      }
      KeptOf(requests, windows, limit, windowMs, at - windowMs, key);
      var window := Prune(WindowOf(windows, key), at - windowMs);
      ghost var pruned := windows[key := window];
      PrunedKept(requests, windows, limit, windowMs, at - windowMs, key, pruned);
      if |window| >= limit && window != [] {
        admitted, remaining, retryAfter := false, 0, RetrySeconds(window[0], at, windowMs);
        assert window == window + [];
      } else {
        window := window + [at];
        admitted, remaining, retryAfter := true, limit - |window|, 0;
      }
      windows := windows[key := window];
      RequestKept(requests, pruned, limit, windowMs, key, at, windows);
      MarksArePast(requests, key, limit, windowMs, at);
      requests := requests + [Request(key, at)];
    }
  }

  lemma {:induction false} KeptOf(requests: seq<Request>, windows: map<string, seq<int>>, limit: int, windowMs: nat,
                                  threshold: int, key: string)
    requires AllKept(requests, windows, limit, windowMs, threshold)
    ensures Sorted(WindowOf(windows, key))
    ensures Alive(WindowOf(windows, key), threshold) == Alive(FullLog(requests, key, limit, windowMs), threshold)
  {
    hide Keeps, FullLog, Sorted, Alive;
    assert Keeps(FullLog(requests, key, limit, windowMs), WindowOf(windows, key), threshold);
    PruningKeeps(FullLog(requests, key, limit, windowMs), WindowOf(windows, key), threshold, threshold);
  }
}
