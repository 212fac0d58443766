/**
 * What the merchant can still take after a cancellation: the promise computed before
 * the signature, against the program's own rule for pulls. Moments on the screen are
 * milliseconds, the chain counts whole seconds.
 */
module CancelWindow {
  import opened Shared

  /** JavaScript's `Math.floor(x / 1000)`; Dafny's `/` floors for a positive divisor. */
  function Seconds(millis: int): int {
    millis / 1000
  }

  // ---------------------------------------------------------------- the promise

  datatype Subscription = Subscription(periodSeconds: int, periodStartedAt: int, cap: nat, spentInPeriod: nat)

  datatype Window = Window(endsNoLaterThan: int, currentPeriodStartedAt: int, chargedThisPeriod: nat, stillChargeable: nat)

  datatype WindowError = PeriodNotPositive

  function PeriodsElapsed(period: int, start: int, current: int): (n: nat)
    requires period > 0
  {
    (if current > start then current - start else 0) / period
  }

  function CancelWindow(s: Subscription, now: int): Result<Window, WindowError> {
    if s.periodSeconds <= 0 then Err(PeriodNotPositive)
    else
      var start, current := Seconds(s.periodStartedAt), Seconds(now);
      var elapsed := PeriodsElapsed(s.periodSeconds, start, current);
      var currentStart := start + elapsed * s.periodSeconds;
      var charged := if elapsed == 0 then s.spentInPeriod else 0;
      Ok(Window((currentStart + s.periodSeconds) * 1000, currentStart * 1000, charged,
                if s.cap > charged then s.cap - charged else 0))
  }

  // ---------------------------------------------------------------- the program's rule

  /** The account as the program keeps it; `start` and the clock are chain seconds. */
  datatype Account = Account(period: int, start: int, cap: nat, spent: nat)

  datatype Pull = Pull(at: int, amount: nat)

  /** The period rolls only on a pull, to the period the clock is in, and starts at nothing taken. */
  function Rolled(a: Account, at: int): Account
    requires a.period > 0
  {
    var elapsed := PeriodsElapsed(a.period, a.start, at);
    if elapsed == 0 then a else a.(start := a.start + elapsed * a.period, spent := 0)
  }

  function Take(a: Account, p: Pull): (r: (Account, nat))
    requires a.period > 0
    ensures r.0.period == a.period
  {
    var rolled := Rolled(a, p.at);
    if rolled.spent + p.amount <= a.cap then (rolled.(spent := rolled.spent + p.amount), p.amount)
    else (rolled, 0)
  }

  function TotalTaken(a: Account, pulls: seq<Pull>): nat
    requires a.period > 0
    decreases |pulls|
  {
    if pulls == [] then 0
    else
      var (next, taken) := Take(a, pulls[0]);
      taken + TotalTaken(next, pulls[1..])
  }

  function OnChain(s: Subscription): Account {
    Account(s.periodSeconds, Seconds(s.periodStartedAt), s.cap, s.spentInPeriod)
  }

  /** Chain clocks never go back, and the window is half-open: at its end every charge is refused. */
  ghost predicate Within(pulls: seq<Pull>, from: int, to: int) {
    && (forall i :: 0 <= i < |pulls| ==> from <= pulls[i].at < to)
    && (forall i, j :: 0 <= i < j < |pulls| ==> pulls[i].at <= pulls[j].at)
  }

  // ---------------------------------------------------------------- elapsed periods

  lemma {:induction false} ElapsedBounds(period: int, start: int, current: int)
    requires period > 0
    ensures var n := PeriodsElapsed(period, start, current);
            && (current >= start ==> start + n * period <= current < start + (n + 1) * period)
            && (current < start ==> n == 0)
  {
    if current > start {
      var d := current - start;
      assert d == period * (d / period) + d % period;
      assert (d / period + 1) * period == (d / period) * period + period;
    }
  }

  lemma {:induction false} ElapsedIs(period: int, start: int, current: int, n: nat)
    requires period > 0 && start + n * period <= current < start + (n + 1) * period
    ensures PeriodsElapsed(period, start, current) == n
  {
    ElapsedBounds(period, start, current);
    var m := PeriodsElapsed(period, start, current);
    assert n * period >= 0;
    if m < n { assert (m + 1) * period <= n * period by { MulMonotone(m + 1, n, period); } }
    if m > n { assert (n + 1) * period <= m * period by { MulMonotone(n + 1, m, period); } }
  }

  lemma {:induction false} MulMonotone(a: nat, b: nat, c: nat)
    requires a <= b
    ensures a * c <= b * c
  {
    assert b * c == a * c + (b - a) * c;
  }

  // ---------------------------------------------------------------- the promise is kept

  /** Within one period nothing rolls, and what is taken never passes what the cap leaves. */
  lemma {:induction false} TakenWithinOnePeriod(a: Account, pulls: seq<Pull>)
    requires a.period > 0
    requires forall i :: 0 <= i < |pulls| ==> pulls[i].at < a.start + a.period
    ensures TotalTaken(a, pulls) <= if a.cap > a.spent then a.cap - a.spent else 0
    decreases |pulls|
  {
    if pulls != [] {
      ElapsedBounds(a.period, a.start, pulls[0].at);
      assert PeriodsElapsed(a.period, a.start, pulls[0].at) == 0 by {
        var n := PeriodsElapsed(a.period, a.start, pulls[0].at);
        if n >= 1 { MulMonotone(1, n, a.period); }
      }
      var (next, taken) := Take(a, pulls[0]);
      TakenWithinOnePeriod(next, pulls[1..]);
    }
  }

  /**
   * Never more than the ceiling: whatever pulls the merchant sends between now and the
   * promised end, the one that rolls the period included, they take at most what the
   * screen said.
   */
  lemma {:induction false} NeverMoreThanPromised(s: Subscription, now: int, pulls: seq<Pull>)
    requires CancelWindow(s, now).Ok?
    requires Within(pulls, Seconds(now), Seconds(CancelWindow(s, now).value.endsNoLaterThan))
    ensures TotalTaken(OnChain(s), pulls) <= CancelWindow(s, now).value.stillChargeable
  {
    var a := OnChain(s);
    var n := PeriodsElapsed(a.period, a.start, Seconds(now));
    ElapsedBounds(a.period, a.start, Seconds(now));
    var ends := a.start + n * a.period + a.period;
    assert Seconds(CancelWindow(s, now).value.endsNoLaterThan) == ends;
    if n == 0 {
      TakenWithinOnePeriod(a, pulls);
    } else if pulls != [] {
      assert (n + 1) * a.period == n * a.period + a.period;
      ElapsedIs(a.period, a.start, pulls[0].at, n);
      var (next, taken) := Take(a, pulls[0]);
      assert next.start + next.period == ends;
      TakenWithinOnePeriod(next, pulls[1..]);
    }
  }

  /**
   * The window itself: it is the period the clock is in, a whole number of periods after
   * the recorded start; an amount taken in a period that is over does not count against it.
   */
  lemma {:induction false} WindowIsTheCurrentPeriod(s: Subscription, now: int)
    ensures CancelWindow(s, now).Ok? <==> s.periodSeconds > 0
    ensures CancelWindow(s, now).Ok? ==>
              var w := CancelWindow(s, now).value;
              var start, current := s.periodStartedAt / 1000, now / 1000;
              && w.endsNoLaterThan == w.currentPeriodStartedAt + s.periodSeconds * 1000
              && (exists k: nat :: w.currentPeriodStartedAt == (start + k * s.periodSeconds) * 1000)
              && (current >= start ==> w.currentPeriodStartedAt / 1000 <= current < w.endsNoLaterThan / 1000)
              && (current < start + s.periodSeconds <==> w.currentPeriodStartedAt == start * 1000)
              && w.chargedThisPeriod == (if current < start + s.periodSeconds then s.spentInPeriod else 0)
              && w.stillChargeable == (if w.chargedThisPeriod < s.cap then s.cap - w.chargedThisPeriod else 0)
  {
    if s.periodSeconds > 0 {
      var period, start, current := s.periodSeconds, s.periodStartedAt / 1000, now / 1000;
      var n := PeriodsElapsed(period, start, current);
      ElapsedBounds(period, start, current);
      assert CancelWindow(s, now).value.currentPeriodStartedAt == (start + n * period) * 1000;
      assert (n + 1) * period == n * period + period;
      if n >= 1 { MulMonotone(1, n, period); }
    }
  }

  /** The ceiling is no looser than it has to be: one pull right now can take all of it. */
  lemma {:induction false} PromiseIsTight(s: Subscription, now: int)
    requires CancelWindow(s, now).Ok?
    ensures var w := CancelWindow(s, now).value;
            && TotalTaken(OnChain(s), [Pull(Seconds(now), w.stillChargeable)]) == w.stillChargeable
            && (Seconds(now) >= Seconds(s.periodStartedAt) ==> Seconds(now) < Seconds(w.endsNoLaterThan))
  {
    var a := OnChain(s);
    var w := CancelWindow(s, now).value;
    var n := PeriodsElapsed(a.period, a.start, Seconds(now));
    ElapsedBounds(a.period, a.start, Seconds(now));
    assert (n + 1) * a.period == n * a.period + a.period;
    assert TotalTaken(a, [Pull(Seconds(now), w.stillChargeable)])
           == Take(a, Pull(Seconds(now), w.stillChargeable)).1 + TotalTaken(Take(a, Pull(Seconds(now), w.stillChargeable)).0, []);
  }

  /**
   * The recorded start may lag by whole periods: rolling it forward by any number of
   * the elapsed ones leaves the end date, the current period and (once over) the
   * amount unchanged.
   */
  lemma {:induction false} RollingForwardChangesNothing(s: Subscription, now: int, k: nat)
    requires s.periodSeconds > 0
    requires k <= PeriodsElapsed(s.periodSeconds, Seconds(s.periodStartedAt), Seconds(now))
    ensures var rolled := s.(periodStartedAt := s.periodStartedAt + k * s.periodSeconds * 1000, spentInPeriod := if k == 0 then s.spentInPeriod else 0);
            CancelWindow(rolled, now) == CancelWindow(s, now)
  {
    var period, start, current := s.periodSeconds, Seconds(s.periodStartedAt), Seconds(now);
    var shift := k * period;
    assert Seconds(s.periodStartedAt + shift * 1000) == start + shift;
    var n := PeriodsElapsed(period, start, current);
    ElapsedBounds(period, start, current);
    if k > 0 {
      assert start + shift + (n - k) * period == start + n * period;
      assert start + shift + (n - k + 1) * period == start + (n + 1) * period;
      if current >= start { ElapsedIs(period, start + shift, current, n - k); }
    }
  }

  // ---------------------------------------------------------------- when an account may be closed

  datatype Kind = Fixed | Recurring | PlanSubscription

  datatype RevokeAction = Close | CancelSubscription | Wait(until: int)

  function RevokeActionFor(kind: Kind, endsAt: Option<int>, now: int): RevokeAction {
    if kind != PlanSubscription then Close
    else if endsAt.None? then CancelSubscription
    else if endsAt.value <= now then Close
    else Wait(endsAt.value)
  }

  /**
   * A direct permission is closed at once. A subscription is cancelled first; once it has
   * an end, one waits for exactly that moment, and from it on it is closed.
   */
  lemma {:induction false} RevokeActionSays(kind: Kind, endsAt: Option<int>, now: int)
    ensures kind != PlanSubscription ==> RevokeActionFor(kind, endsAt, now) == Close
    ensures kind == PlanSubscription && endsAt.None? ==> RevokeActionFor(kind, endsAt, now) == CancelSubscription
    ensures kind == PlanSubscription && endsAt.Some? ==>
              RevokeActionFor(kind, endsAt, now) == if now < endsAt.value then Wait(endsAt.value) else Close
    ensures RevokeActionFor(kind, endsAt, now).Wait? ==>
              forall later :: now <= later ==>
                (RevokeActionFor(kind, endsAt, later) == Close <==> RevokeActionFor(kind, endsAt, now).until <= later)
  {
  }

  /** What pulls take in all: the program refuses every one from the end on, and before it the rule above holds. */
  function TakenUntil(a: Account, endsAt: Option<int>, pulls: seq<Pull>): nat
    requires a.period > 0
    decreases |pulls|
  {
    if pulls == [] then 0
    else if endsAt.Some? && pulls[0].at >= Seconds(endsAt.value) then TakenUntil(a, endsAt, pulls[1..])
    else
      var (next, taken) := Take(a, pulls[0]);
      taken + TakenUntil(next, endsAt, pulls[1..])
  }

  ghost predicate NotBefore(pulls: seq<Pull>, now: int) {
    forall i :: 0 <= i < |pulls| ==> pulls[i].at >= Seconds(now)
  }

  /** What is left of the cap in the period `at` falls in. */
  function LeftAt(a: Account, at: int): nat
    requires a.period > 0
  {
    var spent := Rolled(a, at).spent;
    if a.cap > spent then a.cap - spent else 0
  }

  lemma {:induction false} NothingAfterTheEnd(a: Account, end: int, now: int, pulls: seq<Pull>)
    requires a.period > 0 && end <= now && NotBefore(pulls, now)
    ensures TakenUntil(a, Some(end), pulls) == 0
    decreases |pulls|
  {
    if pulls != [] {
      assert pulls[0].at >= Seconds(now) >= Seconds(end);
      NothingAfterTheEnd(a, end, now, pulls[1..]);
    }
  }

  lemma {:induction false} OnePullTakesAllLeft(a: Account, endsAt: Option<int>, now: int)
    requires a.period > 0 && (endsAt.Some? ==> now < endsAt.value && endsAt.value % 1000 == 0)
    ensures TakenUntil(a, endsAt, [Pull(Seconds(now), LeftAt(a, Seconds(now)))]) == LeftAt(a, Seconds(now))
  {
    var pull := Pull(Seconds(now), LeftAt(a, Seconds(now)));
    assert [pull][1..] == [];
    assert LeftAt(a, Seconds(now)) > 0 ==> Take(a, pull).1 == pull.amount;
  }

  /**
   * A subscription is offered for closing only when it was cancelled and no pulls, now or
   * later, take anything more. With an end in whole seconds, which is all the chain
   * records, it is offered no later than that either: until then one pull takes all that
   * is left of the period, so where anything is left the two coincide.
   */
  lemma {:induction false} ClosedOnlyWhenNothingCanBePulled(a: Account, endsAt: Option<int>, now: int)
    requires a.period > 0
    ensures RevokeActionFor(PlanSubscription, endsAt, now) == Close
            ==> forall pulls :: NotBefore(pulls, now) ==> TakenUntil(a, endsAt, pulls) == 0
    ensures (endsAt.Some? ==> endsAt.value % 1000 == 0) && LeftAt(a, Seconds(now)) > 0
            ==> (RevokeActionFor(PlanSubscription, endsAt, now) == Close
                 <==> forall pulls :: NotBefore(pulls, now) ==> TakenUntil(a, endsAt, pulls) == 0)
  {
    if RevokeActionFor(PlanSubscription, endsAt, now) == Close {
      forall pulls | NotBefore(pulls, now) ensures TakenUntil(a, endsAt, pulls) == 0 {
        NothingAfterTheEnd(a, endsAt.value, now, pulls);
      }
    } else if endsAt.Some? ==> endsAt.value % 1000 == 0 {
      OnePullTakesAllLeft(a, endsAt, now);
      assert NotBefore([Pull(Seconds(now), LeftAt(a, Seconds(now)))], now);
    }
  }
}
