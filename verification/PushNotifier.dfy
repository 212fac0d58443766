/**
 * Web Push: any number of workers claim an occasion, send it, and give the claim back only
 * when the push service could not be reached, while retention deletes claims that are old.
 */
module PushNotifier {
  import opened Shared

  const DAY_MS: int := 24 * 60 * 60 * 1000
  const MIN_RETENTION_DAYS: int := 90
  const MAX_LEAD_MS: int := 30 * DAY_MS

  /** What a push is about: a refused charge, or a permission's next charge. */
  datatype Occasion = Refusal(eventId: nat) | Due(pda: string, periodStartedAt: int)

  /** A browser following one wallet; an occasion is one wallet's. */
  datatype Browser = Browser(endpoint: string, owner: string)

  /**
   * One row of `push_subscriptions`, ever: saving a known browser again moves `createdAt`,
   * and a browser that was removed and comes back gets a new row.
   */
  datatype Row = Row(browser: Browser, insertedAt: int, createdAt: int, removedAt: Option<int>)

  /** One row of `push_deliveries`: at most one per subscription row and occasion. */
  datatype Key = Key(subscription: nat, occasion: Occasion)

  /**
   * What the chain says of each occasion, and the configured lead. `skew` is how far
   * ahead of our clock a block time may run.
   */
  datatype World = World(blockTime: nat -> int, periodMs: string -> nat, leadMs: int, skew: nat)

  ghost predicate Configured(w: World) {
    0 < w.leadMs <= MAX_LEAD_MS && DAY_MS + w.skew <= MAX_LEAD_MS
  }

  // ---------------------------------------------------------------- when an occasion is due

  function UpcomingLeadMs(periodMs: nat, leadMs: int): int {
    if periodMs <= 2 * leadMs then periodMs / 4 else leadMs
  }

  /** The two scans' conditions on the clock. */
  predicate IsDue(w: World, o: Occasion, now: int) {
    match o
    case Refusal(id) => w.blockTime(id) > now - DAY_MS && w.blockTime(id) <= now + w.skew
    case Due(pda, start) =>
      var due := start + w.periodMs(pda);
      due > now && due <= now + w.leadMs && due - now <= UpcomingLeadMs(w.periodMs(pda), w.leadMs)
  }

  /** A browser hears of refusals from the moment it subscribed on; of charges due without such a condition. */
  predicate IsFor(w: World, since: int, o: Occasion) {
    o.Refusal? ==> w.blockTime(o.eventId) >= since
  }

  function Opens(w: World, o: Occasion): int {
    match o
    case Refusal(id) => w.blockTime(id) - w.skew
    case Due(pda, start) => start + w.periodMs(pda) - w.leadMs
  }

  function Closes(w: World, o: Occasion): int {
    match o
    case Refusal(id) => w.blockTime(id) + DAY_MS
    case Due(pda, start) => start + w.periodMs(pda)
  }

  /** An occasion is due only inside a window no longer than thirty days. */
  lemma {:induction false} DueOnlyInItsWindow(w: World, o: Occasion, now: int)
    requires Configured(w)
    ensures IsDue(w, o, now) ==> Opens(w, o) <= now < Closes(w, o)
    ensures Closes(w, o) <= Opens(w, o) + MAX_LEAD_MS
    ensures o.Due? && IsDue(w, o, now) ==>
              Closes(w, o) - now <= w.leadMs && (w.periodMs(o.pda) <= 2 * w.leadMs ==> 4 * (Closes(w, o) - now) <= w.periodMs(o.pda))
  {
  }

  /**
   * When an occasion is announced: a refusal for a day, a charge in the last `leadMs`
   * before it - or in the last quarter of its period, when two leads are no less than that.
   */
  lemma {:induction false} DueExactly(w: World, o: Occasion, now: int)
    ensures o.Refusal? ==>
              (IsDue(w, o, now) <==> now - 86_400_000 < w.blockTime(o.eventId) <= now + w.skew)
    ensures o.Due? ==>
              var left, period := o.periodStartedAt + w.periodMs(o.pda) - now, w.periodMs(o.pda);
              IsDue(w, o, now) <==> 0 < left <= w.leadMs && (period <= 2 * w.leadMs ==> 4 * left <= period)
  {
  }

  /** Every charge has its moments: from so long before it until then, a scan announces it. */
  lemma {:induction false} EveryChargeIsAnnounced(w: World, pda: string, start: int, now: int)
    requires w.leadMs > 0
    ensures var period := w.periodMs(pda);
            var lead := if period <= 2 * w.leadMs then period / 4 else w.leadMs;
            start + period - lead <= now < start + period <==> IsDue(w, Due(pda, start), now)
  {
    DueExactly(w, Due(pda, start), now);
  }

  // ---------------------------------------------------------------- the protocol

  datatype Outcome = Delivered | Gone | Refused | Unreachable

  datatype Phase = Ready | Sending(key: Key) | Answered(key: Key, outcome: Outcome)

  datatype Worker = Worker(startedAt: int, queue: seq<Key>, gone: set<nat>, phase: Phase)

  /**
   * `claims` holds each claim's `sent_at`. `accepted` and `lost` are the record of what
   * push services took, and of what they took while we were told nothing of it.
   */
  datatype State = State(clock: int, subscriptions: set<nat>, nextSubscription: nat, rows: map<nat, Row>,
                         claims: map<Key, int>, workers: map<nat, Worker>, accepted: multiset<Key>, lost: multiset<Key>)

  datatype Event =
    | Subscribe(browser: Browser)
    | Unsubscribe(subscription: nat)
    | Begin(id: nat, queue: seq<Key>)
    | Claim(id: nat)
    | Answer(id: nat, taken: bool, outcome: Outcome)
    | Settle(id: nat)
    | Crash(id: nat, taken: bool)
    | Retain(days: int)
    | Tick(ms: nat)

  /** A pass shorter than this cannot outlive its occasions' claims. */
  const PASS_LIMIT_MS: int := MIN_RETENTION_DAYS * DAY_MS - MAX_LEAD_MS

  function Without(claims: map<Key, int>, subscription: nat): map<Key, int> {
    map k | k in claims && k.subscription != subscription :: claims[k]
  }

  /** The browser's own row, while it has one. */
  function LiveRows(s: State, browser: Browser): set<nat> {
    set n | n in s.subscriptions && n in s.rows && s.rows[n].browser == browser
  }

  /** `savePushSubscription`: an upsert on the browser. */
  function Save(s: State, browser: Browser): State {
    var live := LiveRows(s, browser);
    if live != {} then
      s.(rows := map n | n in s.rows :: if n in live then s.rows[n].(createdAt := s.clock) else s.rows[n])
    else
      s.(subscriptions := s.subscriptions + {s.nextSubscription}, nextSubscription := s.nextSubscription + 1,
         rows := s.rows[s.nextSubscription := Row(browser, s.clock, s.clock, None)])
  }

  /** The row is deleted, and its claims with it (`ON DELETE cascade`). */
  function Remove(s: State, subscription: nat): State {
    s.(subscriptions := s.subscriptions - {subscription}, claims := Without(s.claims, subscription),
       rows := if subscription in s.subscriptions && subscription in s.rows
               then s.rows[subscription := s.rows[subscription].(removedAt := Some(s.clock))] else s.rows)
  }

  /** Insert on conflict do nothing; a subscription that is gone fails the insert, and the pass with it. */
  function ClaimNext(s: State, id: nat): State
    requires id in s.workers && s.workers[id].phase.Ready?
  {
    var w := s.workers[id];
    if w.queue == [] then s.(workers := s.workers - {id})
    else
      var key, rest := w.queue[0], w.queue[1..];
      if key.subscription in w.gone || key in s.claims then s.(workers := s.workers[id := w.(queue := rest)])
      else if key.subscription !in s.subscriptions then s.(workers := s.workers - {id})
      else s.(claims := s.claims[key := s.clock], workers := s.workers[id := w.(queue := rest, phase := Sending(key))])
  }

  /** A service answers `delivered` only for what it took, `gone` and `refused` only for what it did not. */
  predicate CanAnswer(taken: bool, outcome: Outcome) {
    (outcome.Delivered? ==> taken) && (outcome.Gone? || outcome.Refused? ==> !taken)
  }

  function AnswerNow(s: State, id: nat, taken: bool, outcome: Outcome): State
    requires id in s.workers && s.workers[id].phase.Sending?
  {
    var w := s.workers[id];
    var key := w.phase.key;
    s.(workers := s.workers[id := w.(phase := Answered(key, outcome))],
       accepted := if taken then s.accepted + multiset{key} else s.accepted,
       lost := if taken && outcome.Unreachable? then s.lost + multiset{key} else s.lost)
  }

  function SettleNow(s: State, id: nat): State
    requires id in s.workers && s.workers[id].phase.Answered?
  {
    var w := s.workers[id];
    var key := w.phase.key;
    match w.phase.outcome
    case Delivered => s.(workers := s.workers[id := w.(phase := Ready)])
    case Refused => s.(workers := s.workers[id := w.(phase := Ready)])
    case Gone =>
      Remove(s, key.subscription)
      .(workers := s.workers[id := w.(phase := Ready, gone := w.gone + {key.subscription})])
    case Unreachable => s.(workers := s.workers[id := w.(phase := Ready)], claims := s.claims - {key})
  }

  /** A worker stopped anywhere loses its pass; what it was sending may have been taken. */
  function CrashNow(s: State, id: nat, taken: bool): State
    requires id in s.workers
  {
    var w := s.workers[id];
    s.(workers := s.workers - {id},
       accepted := if taken && w.phase.Sending? then s.accepted + multiset{w.phase.key} else s.accepted)
  }

  /** The scans list a row that is there, with an occasion that is due and its to hear. */
  predicate IsListed(world: World, s: State, k: Key) {
    && k.subscription in s.subscriptions && k.subscription in s.rows
    && IsDue(world, k.occasion, s.clock) && IsFor(world, s.rows[k.subscription].createdAt, k.occasion)
  }

  /** What a scan lists, in the tables' and the chain's own terms. */
  lemma {:induction false} ListedExactly(world: World, s: State, k: Key)
    ensures IsListed(world, s, k) <==>
              && k.subscription in s.subscriptions && k.subscription in s.rows
              && (k.occasion.Refusal? ==>
                    && s.rows[k.subscription].createdAt <= world.blockTime(k.occasion.eventId)
                    && s.clock - 86_400_000 < world.blockTime(k.occasion.eventId) <= s.clock + world.skew)
              && (k.occasion.Due? ==>
                    var left, period := k.occasion.periodStartedAt + world.periodMs(k.occasion.pda) - s.clock,
                                        world.periodMs(k.occasion.pda);
                    0 < left <= world.leadMs && (period <= 2 * world.leadMs ==> 4 * left <= period))
  {
    DueExactly(world, k.occasion, s.clock);
    hide IsDue;
  }

  /** Saving a browser leaves it one more or the same row, created now, and touches no other row and no claim. */
  lemma {:induction false} SaveSays(s: State, browser: Browser)
    requires s.nextSubscription !in s.subscriptions
    ensures var t := Save(s, browser);
            && t.claims == s.claims && t.workers == s.workers && s.rows.Keys <= t.rows.Keys
            && (if exists n :: n in s.subscriptions && n in s.rows && s.rows[n].browser == browser
                then t.subscriptions == s.subscriptions && t.rows.Keys == s.rows.Keys
                else t.subscriptions == s.subscriptions + {s.nextSubscription} && s.nextSubscription in t.rows
                     && t.rows[s.nextSubscription].browser == browser)
            && (forall n :: n in t.subscriptions && n in t.rows && t.rows[n].browser == browser ==> t.rows[n].createdAt == s.clock)
            && forall n :: n in s.rows && n != s.nextSubscription && !(n in s.subscriptions && s.rows[n].browser == browser) ==>
                 t.rows[n] == s.rows[n]
  {
    if n :| n in s.subscriptions && n in s.rows && s.rows[n].browser == browser { assert n in LiveRows(s, browser); }
  }

  function Step(world: World, s: State, e: Event): State {
    match e
    case Subscribe(browser) => Save(s, browser)
    case Unsubscribe(subscription) => Remove(s, subscription)
    case Begin(id, queue) =>
      if id !in s.workers && forall i :: 0 <= i < |queue| ==> IsListed(world, s, queue[i])
      then s.(workers := s.workers[id := Worker(s.clock, queue, {}, Ready)]) else s
    case Claim(id) => if id in s.workers && s.workers[id].phase.Ready? then ClaimNext(s, id) else s
    case Answer(id, taken, outcome) =>
      if id in s.workers && s.workers[id].phase.Sending? && CanAnswer(taken, outcome) then AnswerNow(s, id, taken, outcome) else s
    case Settle(id) => if id in s.workers && s.workers[id].phase.Answered? then SettleNow(s, id) else s
    case Crash(id, taken) => if id in s.workers then CrashNow(s, id, taken) else s
    case Retain(days) =>
      if days < MIN_RETENTION_DAYS then s
      else s.(claims := map k | k in s.claims && s.claims[k] >= s.clock - days * DAY_MS :: s.claims[k])
    case Tick(ms) =>
      if forall id :: id in s.workers ==> s.clock + ms - s.workers[id].startedAt < PASS_LIMIT_MS
      then s.(clock := s.clock + ms) else s
  }

  function Run(world: World, s: State, events: seq<Event>): State
    decreases |events|
  {
    if events == [] then s else Run(world, Step(world, s, events[0]), events[1..])
  }

  // ---------------------------------------------------------------- what every step keeps

  predicate Holds(w: Worker, k: Key) {
    !w.phase.Ready? && w.phase.key == k
  }

  /** The worker still owes the answer, or owes giving the claim back. */
  predicate Undecided(w: Worker, k: Key) {
    w.phase == Sending(k) || w.phase == Answered(k, Unreachable)
  }

  ghost predicate OneHolder(s: State) {
    forall a, b, k :: a in s.workers && b in s.workers && Holds(s.workers[a], k) && Holds(s.workers[b], k) ==> a == b
  }

  ghost predicate WorkerStands(world: World, s: State, w: Worker) {
    && w.startedAt <= s.clock < w.startedAt + PASS_LIMIT_MS
    && (forall i :: 0 <= i < |w.queue| ==> IsDue(world, w.queue[i].occasion, w.startedAt))
    && (!w.phase.Ready? ==>
          && IsDue(world, w.phase.key.occasion, w.startedAt)
          && (w.phase.key in s.claims || w.phase.key.subscription !in s.subscriptions)
          && w.phase.key.subscription < s.nextSubscription
          && (w.phase.key in s.claims ==> s.claims[w.phase.key] >= w.startedAt))
  }

  ghost predicate ClaimStands(world: World, s: State, k: Key)
    requires k in s.claims
  {
    Opens(world, k.occasion) <= s.claims[k] <= s.clock && k.subscription in s.subscriptions
  }

  /** No pass begun by now can still have the occasion in its list. */
  ghost predicate Expired(world: World, s: State, k: Key) {
    Closes(world, k.occasion) + PASS_LIMIT_MS <= s.clock
  }

  ghost predicate NobodyDecides(s: State, k: Key) {
    forall id :: id in s.workers ==> !Undecided(s.workers[id], k)
  }

  /** Nobody can claim the occasion again, and nobody is still sending it. */
  ghost predicate Spent(world: World, s: State, k: Key) {
    && NobodyDecides(s, k) && k.subscription < s.nextSubscription
    && (k in s.claims || k.subscription !in s.subscriptions || Expired(world, s, k))
  }

  ghost predicate OnceOnly(world: World, s: State, k: Key) {
    s.accepted[k] <= s.lost[k] || (s.accepted[k] == s.lost[k] + 1 && Spent(world, s, k))
  }

  ghost predicate Inv(world: World, s: State) {
    && (forall n :: n in s.subscriptions ==> n < s.nextSubscription)
    && OneHolder(s)
    && (forall id :: id in s.workers ==> WorkerStands(world, s, s.workers[id]))
    && (forall k :: k in s.claims ==> ClaimStands(world, s, k))
    && (forall k :: OnceOnly(world, s, k))
  }

  /** A worker that decides nothing may drop work, finish, or note a subscription as gone. */
  lemma {:induction false} LessWorkKeepsInv(world: World, s: State, id: nat, queue: seq<Key>, gone: set<nat>)
    requires Inv(world, s) && id in s.workers && (forall k :: !Undecided(s.workers[id], k))
    requires forall k :: k in queue ==> k in s.workers[id].queue
    ensures Inv(world, s.(workers := s.workers[id := Worker(s.workers[id].startedAt, queue, gone, Ready)]))
    ensures Inv(world, s.(workers := s.workers - {id}))
  {
    hide IsDue, Opens, Closes;
    var w := s.workers[id];
    assert WorkerStands(world, s, w);
    forall i | 0 <= i < |queue| ensures IsDue(world, queue[i].occasion, w.startedAt) {
      assert queue[i] in queue;
      var j :| 0 <= j < |w.queue| && w.queue[j] == queue[i];
    }
    WorkersKeepInv(world, s, s.(workers := s.workers[id := Worker(w.startedAt, queue, gone, Ready)]), id);
    WorkersKeepInv(world, s, s.(workers := s.workers - {id}), id);
  }

  /** Only one worker changes, to one that holds nothing and undecided nothing. */
  lemma {:induction false} WorkersKeepInv(world: World, s: State, t: State, id: nat)
    requires Inv(world, s) && t == s.(workers := t.workers)
    requires id in s.workers ==> forall k :: !Undecided(s.workers[id], k)
    requires forall other :: other in t.workers && other != id ==> other in s.workers && t.workers[other] == s.workers[other]
    requires forall other :: other in s.workers && other != id ==> other in t.workers
    requires id in t.workers ==> t.workers[id].phase.Ready? && WorkerStands(world, s, t.workers[id])
    ensures Inv(world, t)
  {
    hide IsDue, Opens, Closes;
    forall other | other in t.workers ensures WorkerStands(world, t, t.workers[other]) {
      assert other != id ==> WorkerStands(world, s, s.workers[other]);
    }
    forall k | k in t.claims ensures ClaimStands(world, t, k) { assert ClaimStands(world, s, k); }
    forall k ensures OnceOnly(world, t, k) { assert OnceOnly(world, s, k); }
  }

  lemma {:induction false} NewClaimKeepsInv(world: World, s: State, id: nat)
    requires Configured(world) && Inv(world, s) && id in s.workers && s.workers[id].phase.Ready?
    requires s.workers[id].queue != []
    requires s.workers[id].queue[0] !in s.claims && s.workers[id].queue[0].subscription in s.subscriptions
    ensures var w := s.workers[id];
            Inv(world, s.(claims := s.claims[w.queue[0] := s.clock],
                          workers := s.workers[id := w.(queue := w.queue[1..], phase := Sending(w.queue[0]))]))
  {
    hide IsDue, Opens, Closes;
    var w := s.workers[id];
    var key := w.queue[0];
    var t := s.(claims := s.claims[key := s.clock], workers := s.workers[id := w.(queue := w.queue[1..], phase := Sending(key))]);
    assert WorkerStands(world, s, w);
    DueOnlyInItsWindow(world, key.occasion, w.startedAt);
    forall other | other in t.workers ensures WorkerStands(world, t, t.workers[other]) {
      assert WorkerStands(world, s, s.workers[other]);
    }
    forall k | k in t.claims ensures ClaimStands(world, t, k) { assert k in s.claims ==> ClaimStands(world, s, k); }
    forall k ensures OnceOnly(world, t, k) { assert OnceOnly(world, s, k); }
  }

  lemma {:induction false} ClaimKeepsInv(world: World, s: State, id: nat)
    requires Configured(world) && Inv(world, s) && id in s.workers && s.workers[id].phase.Ready?
    ensures Inv(world, ClaimNext(s, id))
  {
    var w := s.workers[id];
    var rest := if w.queue == [] then [] else w.queue[1..];
    LessWorkKeepsInv(world, s, id, rest, w.gone);
    if w.queue != [] && w.queue[0] !in s.claims && w.queue[0].subscription in s.subscriptions {
      NewClaimKeepsInv(world, s, id);
    }
    hide Inv;
  }

  lemma {:induction false} AnswerKeepsInv(world: World, s: State, id: nat, taken: bool, outcome: Outcome)
    requires Inv(world, s) && id in s.workers && s.workers[id].phase.Sending? && CanAnswer(taken, outcome)
    ensures Inv(world, AnswerNow(s, id, taken, outcome))
  {
    hide IsDue, Opens, Closes;
    var key := s.workers[id].phase.key;
    var t := AnswerNow(s, id, taken, outcome);
    assert Holds(s.workers[id], key) && Undecided(s.workers[id], key);
    forall other | other in t.workers ensures WorkerStands(world, t, t.workers[other]) {
      assert WorkerStands(world, s, s.workers[other]);
    }
    forall k ensures OnceOnly(world, t, k) {
      assert OnceOnly(world, s, k);
      if k == key && taken && !outcome.Unreachable? {
        forall other | other in t.workers ensures !Undecided(t.workers[other], k) {
          assert other != id ==> !Holds(s.workers[other], k);
        }
      }
    }
  }

  lemma {:induction false} ReleaseKeepsInv(world: World, s: State, id: nat)
    requires Inv(world, s) && id in s.workers && s.workers[id].phase.Answered? && s.workers[id].phase.outcome.Unreachable?
    ensures var w := s.workers[id];
            Inv(world, s.(workers := s.workers[id := w.(phase := Ready)], claims := s.claims - {w.phase.key}))
  {
    hide IsDue, Opens, Closes;
    var key := s.workers[id].phase.key;
    var t := s.(workers := s.workers[id := s.workers[id].(phase := Ready)], claims := s.claims - {key});
    assert Holds(s.workers[id], key) && Undecided(s.workers[id], key);
    forall other | other in t.workers ensures WorkerStands(world, t, t.workers[other]) {
      assert WorkerStands(world, s, s.workers[other]);
      assert other != id ==> !Holds(s.workers[other], key);
    }
    forall k | k in t.claims ensures ClaimStands(world, t, k) { assert ClaimStands(world, s, k); }
    forall k ensures OnceOnly(world, t, k) { assert OnceOnly(world, s, k); }
  }

  lemma {:induction false} SettleKeepsInv(world: World, s: State, id: nat)
    requires Inv(world, s) && id in s.workers && s.workers[id].phase.Answered?
    ensures Inv(world, SettleNow(s, id))
  {
    var w := s.workers[id];
    var key := w.phase.key;
    hide Inv, Remove;
    match w.phase.outcome
    case Unreachable => ReleaseKeepsInv(world, s, id);
    case Gone =>
      RemoveKeepsInv(world, s, key.subscription);
      RemoveKeepsWorkers(s, key.subscription);
      LessWorkKeepsInv(world, Remove(s, key.subscription), id, w.queue, w.gone + {key.subscription});
    case _ => LessWorkKeepsInv(world, s, id, w.queue, w.gone);
  }

  lemma {:induction false} RemoveKeepsWorkers(s: State, subscription: nat)
    ensures Remove(s, subscription).workers == s.workers
  {
  }

  lemma {:induction false} CrashKeepsInv(world: World, s: State, id: nat, taken: bool)
    requires Inv(world, s) && id in s.workers
    ensures Inv(world, CrashNow(s, id, taken))
  {
    hide IsDue, Opens, Closes;
    var t := CrashNow(s, id, taken);
    forall other | other in t.workers ensures WorkerStands(world, t, t.workers[other]) {
      assert WorkerStands(world, s, s.workers[other]);
    }
    forall k ensures OnceOnly(world, t, k) {
      assert OnceOnly(world, s, k);
      if taken && s.workers[id].phase == Sending(k) {
        assert Holds(s.workers[id], k) && Undecided(s.workers[id], k);
        assert WorkerStands(world, s, s.workers[id]);
        forall other | other in t.workers ensures !Undecided(t.workers[other], k) {
          assert !Holds(s.workers[other], k);
        }
      }
    }
  }

  lemma {:induction false} RetainKeepsInv(world: World, s: State, days: int)
    requires Configured(world) && Inv(world, s) && days >= MIN_RETENTION_DAYS
    ensures Inv(world, Step(world, s, Retain(days)))
  {
    var t := Step(world, s, Retain(days));
    forall k | k in s.claims && k !in t.claims ensures Expired(world, t, k) {
      assert ClaimStands(world, s, k);
      DueOnlyInItsWindow(world, k.occasion, s.clock);
      assert s.claims[k] < s.clock - days * DAY_MS;
    }
    forall id | id in t.workers ensures WorkerStands(world, t, t.workers[id]) {
      assert WorkerStands(world, s, s.workers[id]);
      var w := s.workers[id];
      if !w.phase.Ready? && w.phase.key in s.claims && w.phase.key !in t.claims {
        DueOnlyInItsWindow(world, w.phase.key.occasion, w.startedAt);
        assert false;
      }
    }
    forall k ensures OnceOnly(world, t, k) {
      assert OnceOnly(world, s, k);
      assert Spent(world, s, k) ==> Spent(world, t, k);
    }
  }

  lemma {:induction false} RemoveKeepsInv(world: World, s: State, subscription: nat)
    requires Inv(world, s)
    ensures Inv(world, Remove(s, subscription))
  {
    hide IsDue, Opens, Closes;
    var t := Remove(s, subscription);
    forall id | id in t.workers ensures WorkerStands(world, t, t.workers[id]) {
      assert WorkerStands(world, s, s.workers[id]);
    }
    forall k | k in t.claims ensures ClaimStands(world, t, k) { assert ClaimStands(world, s, k); }
    forall k ensures OnceOnly(world, t, k) { assert OnceOnly(world, s, k); }
  }

  lemma {:induction false} SaveKeepsInv(world: World, s: State, browser: Browser)
    requires Inv(world, s)
    ensures Inv(world, Save(s, browser))
  {
    hide IsDue, Opens, Closes, LiveRows;
    var t := Save(s, browser);
    forall id | id in t.workers ensures WorkerStands(world, t, t.workers[id]) { assert WorkerStands(world, s, s.workers[id]); }
    forall k | k in t.claims ensures ClaimStands(world, t, k) { assert ClaimStands(world, s, k); }
    forall k ensures OnceOnly(world, t, k) { assert OnceOnly(world, s, k); }
  }

  lemma {:induction false} BeginKeepsInv(world: World, s: State, id: nat, queue: seq<Key>)
    requires Inv(world, s) && id !in s.workers && forall i :: 0 <= i < |queue| ==> IsDue(world, queue[i].occasion, s.clock)
    ensures Inv(world, s.(workers := s.workers[id := Worker(s.clock, queue, {}, Ready)]))
  {
    hide IsDue, Opens, Closes;
    WorkersKeepInv(world, s, s.(workers := s.workers[id := Worker(s.clock, queue, {}, Ready)]), id);
  }

  lemma {:induction false} TickKeepsInv(world: World, s: State, ms: nat)
    requires Inv(world, s) && forall id :: id in s.workers ==> s.clock + ms - s.workers[id].startedAt < PASS_LIMIT_MS
    ensures Inv(world, s.(clock := s.clock + ms))
  {
    hide IsDue, Opens, Closes;
    var t := s.(clock := s.clock + ms);
    forall id | id in t.workers ensures WorkerStands(world, t, t.workers[id]) { assert WorkerStands(world, s, s.workers[id]); }
    forall k | k in t.claims ensures ClaimStands(world, t, k) { assert ClaimStands(world, s, k); }
    forall k ensures OnceOnly(world, t, k) { assert OnceOnly(world, s, k); }
  }

  lemma {:induction false} StepKeepsInv(world: World, s: State, e: Event)
    requires Configured(world) && Inv(world, s)
    ensures Inv(world, Step(world, s, e))
  {
    hide Inv, ClaimNext, AnswerNow, SettleNow, CrashNow, Save, Remove, IsDue, IsFor;
    match e
    case Claim(id) => if id in s.workers && s.workers[id].phase.Ready? { ClaimKeepsInv(world, s, id); }
    case Answer(id, taken, outcome) =>
      if id in s.workers && s.workers[id].phase.Sending? && CanAnswer(taken, outcome) {
        AnswerKeepsInv(world, s, id, taken, outcome);
      }
    case Settle(id) => if id in s.workers && s.workers[id].phase.Answered? { SettleKeepsInv(world, s, id); }
    case Crash(id, taken) => if id in s.workers { CrashKeepsInv(world, s, id, taken); }
    case Subscribe(browser) => SaveKeepsInv(world, s, browser);
    case Unsubscribe(subscription) => RemoveKeepsInv(world, s, subscription);
    case Retain(days) => if days >= MIN_RETENTION_DAYS { RetainKeepsInv(world, s, days); }
    case Begin(id, queue) =>
      if id !in s.workers && forall i :: 0 <= i < |queue| ==> IsListed(world, s, queue[i]) { BeginKeepsInv(world, s, id, queue); }
    case Tick(ms) =>
      if forall id :: id in s.workers ==> s.clock + ms - s.workers[id].startedAt < PASS_LIMIT_MS { TickKeepsInv(world, s, ms); }
  }

  function Initial(clock: int): State {
    State(clock, {}, 0, map[], map[], map[], multiset{}, multiset{})
  }

  lemma {:induction false} RunKeepsInv(world: World, s: State, events: seq<Event>)
    requires Configured(world) && Inv(world, s)
    ensures Inv(world, Run(world, s, events))
    decreases |events|
  {
    hide Inv, Step;
    if events != [] {
      StepKeepsInv(world, s, events[0]);
      RunKeepsInv(world, Step(world, s, events[0]), events[1..]);
    }
  }

  // ---------------------------------------------------------------- the promises

  /**
   * At most once per subscription row and occasion, over any interleaving of workers,
   * crashes, retries, unsubscriptions and retention: a push service takes an occasion
   * once, plus once for each time it took one without our being told.
   */
  lemma {:induction false} AtMostOnce(world: World, clock: int, events: seq<Event>, k: Key)
    requires Configured(world)
    ensures var s := Run(world, Initial(clock), events);
            && s.accepted[k] <= 1 + s.lost[k]
            && OneHolder(s)
  {
    RunKeepsInv(world, Initial(clock), events);
    assert OnceOnly(world, Run(world, Initial(clock), events), k);
  }

  // ---------------------------------------------------------------- the same browser, another row

  /** `earlier` was gone before `later` was inserted. */
  predicate Replaced(earlier: Row, later: Row) {
    earlier.removedAt.Some? && earlier.removedAt.value <= later.insertedAt
  }

  ghost predicate RowsStand(s: State) {
    && (forall n :: n in s.subscriptions ==> n in s.rows && s.rows[n].removedAt.None?)
    && (forall n :: n in s.rows ==> RowStands(s, n))
    && (forall n, m :: n in s.rows && m in s.rows && n < m && s.rows[n].browser == s.rows[m].browser ==>
          Replaced(s.rows[n], s.rows[m]))
  }

  ghost predicate RowStands(s: State, n: nat)
    requires n in s.rows
  {
    && n < s.nextSubscription && s.rows[n].insertedAt <= s.rows[n].createdAt <= s.clock
    && (n !in s.subscriptions ==> s.rows[n].removedAt.Some?)
    && (s.rows[n].removedAt.Some? ==> s.rows[n].removedAt.value <= s.clock)
  }

  /** The key names a row, and an occasion that row may hear of. */
  ghost predicate Heard(world: World, s: State, k: Key) {
    k.subscription in s.rows && IsFor(world, s.rows[k.subscription].insertedAt, k.occasion)
  }

  ghost predicate KeysStand(world: World, s: State) {
    && (forall id, i :: id in s.workers && 0 <= i < |s.workers[id].queue| ==> Heard(world, s, s.workers[id].queue[i]))
    && (forall id :: id in s.workers && !s.workers[id].phase.Ready? ==> Heard(world, s, s.workers[id].phase.key))
    && (forall k :: k in s.accepted ==> Heard(world, s, k))
  }

  lemma {:induction false} RemoveKeepsRows(s: State, subscription: nat)
    requires RowsStand(s)
    ensures RowsStand(Remove(s, subscription))
  {
    var t := Remove(s, subscription);
    forall n | n in t.rows ensures RowStands(t, n) { assert RowStands(s, n); }
    forall n, m | n in t.rows && m in t.rows && n < m && t.rows[n].browser == t.rows[m].browser
      ensures Replaced(t.rows[n], t.rows[m])
    {
      assert Replaced(s.rows[n], s.rows[m]);
    }
  }

  lemma {:induction false} RenewKeepsRows(s: State, live: set<nat>)
    requires RowsStand(s)
    ensures RowsStand(s.(rows := map n | n in s.rows :: if n in live then s.rows[n].(createdAt := s.clock) else s.rows[n]))
  {
    var t := s.(rows := map n | n in s.rows :: if n in live then s.rows[n].(createdAt := s.clock) else s.rows[n]);
    forall n | n in t.rows ensures RowStands(t, n) { assert RowStands(s, n); }
    forall n, m | n in t.rows && m in t.rows && n < m && t.rows[n].browser == t.rows[m].browser
      ensures Replaced(t.rows[n], t.rows[m])
    {
      assert Replaced(s.rows[n], s.rows[m]);
    }
  }

  lemma {:induction false} InsertKeepsRows(s: State, browser: Browser)
    requires RowsStand(s) && forall n :: n in s.subscriptions && n in s.rows ==> s.rows[n].browser != browser
    ensures RowsStand(s.(subscriptions := s.subscriptions + {s.nextSubscription}, nextSubscription := s.nextSubscription + 1,
                         rows := s.rows[s.nextSubscription := Row(browser, s.clock, s.clock, None)]))
  {
    var next := s.nextSubscription;
    var t := s.(subscriptions := s.subscriptions + {next}, nextSubscription := next + 1,
                rows := s.rows[next := Row(browser, s.clock, s.clock, None)]);
    forall n | n in s.rows ensures n < next { assert RowStands(s, n); }
    forall n | n in t.rows ensures RowStands(t, n) { assert n in s.rows ==> RowStands(s, n); }
    forall n, m | n in t.rows && m in t.rows && n < m && t.rows[n].browser == t.rows[m].browser
      ensures Replaced(t.rows[n], t.rows[m])
    {
      assert n in s.rows && n != next;
      assert RowStands(s, n);
      assert m != next ==> Replaced(s.rows[n], s.rows[m]);
    }
  }

  lemma {:induction false} SaveKeepsRows(s: State, browser: Browser)
    requires RowsStand(s)
    ensures RowsStand(Save(s, browser))
  {
    hide RowsStand;
    var live := LiveRows(s, browser);
    if live != {} {
      RenewKeepsRows(s, live);
    } else {
      forall n | n in s.subscriptions && n in s.rows ensures s.rows[n].browser != browser { assert n !in live; }
      InsertKeepsRows(s, browser);
    }
  }

  /** Rows keep their browser and the moment they were inserted. */
  ghost predicate SameOrigins(s: State, t: State) {
    forall n :: n in s.rows ==>
      n in t.rows && t.rows[n].insertedAt == s.rows[n].insertedAt && t.rows[n].browser == s.rows[n].browser
  }

  /** What settling leaves of the rows: the subscription's removal, if its service declared it gone. */
  function SettledBase(s: State, id: nat): State
    requires id in s.workers && s.workers[id].phase.Answered?
  {
    if s.workers[id].phase.outcome.Gone? then Remove(s, s.workers[id].phase.key.subscription) else s
  }

  lemma {:induction false} SettleRows(s: State, id: nat)
    requires id in s.workers && s.workers[id].phase.Answered?
    ensures var base, t := SettledBase(s, id), SettleNow(s, id);
            && t.rows == base.rows && t.subscriptions == base.subscriptions
            && t.nextSubscription == base.nextSubscription && t.clock == base.clock
  {
  }

  lemma {:induction false} SettleKeepsRows(s: State, id: nat)
    requires id in s.workers && s.workers[id].phase.Answered? && RowsStand(s)
    ensures RowsStand(SettleNow(s, id))
  {
    hide RowsStand, Remove, SettleNow;
    SettleRows(s, id);
    RemoveKeepsRows(s, s.workers[id].phase.key.subscription);
    SameRows(SettledBase(s, id), SettleNow(s, id));
  }

  lemma {:induction false} StepKeepsRows(world: World, s: State, e: Event)
    requires RowsStand(s)
    ensures RowsStand(Step(world, s, e)) && SameOrigins(s, Step(world, s, e))
  {
    SameOriginsAfter(world, s, e);
    RowsUntouched(s);
    hide RowsStand, SameOrigins, Save, Remove, ClaimNext, AnswerNow, SettleNow, CrashNow, IsListed, CanAnswer;
    match e
    case Subscribe(browser) => SaveKeepsRows(s, browser);
    case Unsubscribe(subscription) => RemoveKeepsRows(s, subscription);
    case Settle(id) => if id in s.workers && s.workers[id].phase.Answered? { SettleKeepsRows(s, id); }
    case _ => SameRows(s, Step(world, s, e));
  }

  /** Claiming, answering and stopping leave the clock and the subscription rows as they are. */
  lemma {:induction false} RowsUntouched(s: State)
    ensures forall id :: id in s.workers && s.workers[id].phase.Ready? ==>
              ClaimNext(s, id).rows == s.rows && ClaimNext(s, id).subscriptions == s.subscriptions
              && ClaimNext(s, id).nextSubscription == s.nextSubscription && ClaimNext(s, id).clock == s.clock
    ensures forall id, taken, outcome :: id in s.workers && s.workers[id].phase.Sending? ==>
              AnswerNow(s, id, taken, outcome).rows == s.rows && AnswerNow(s, id, taken, outcome).subscriptions == s.subscriptions
              && AnswerNow(s, id, taken, outcome).nextSubscription == s.nextSubscription && AnswerNow(s, id, taken, outcome).clock == s.clock
    ensures forall id, taken :: id in s.workers ==>
              CrashNow(s, id, taken).rows == s.rows && CrashNow(s, id, taken).subscriptions == s.subscriptions
              && CrashNow(s, id, taken).nextSubscription == s.nextSubscription && CrashNow(s, id, taken).clock == s.clock
  {
  }

  lemma {:induction false} NewRowIsNew(s: State, browser: Browser)
    requires RowsStand(s)
    ensures SameOrigins(s, Save(s, browser))
  {
    forall n | n in s.rows ensures n != s.nextSubscription { assert RowStands(s, n); }
    hide RowsStand;
  }

  lemma {:induction false} RemoveKeepsOrigins(s: State, subscription: nat)
    ensures SameOrigins(s, Remove(s, subscription))
  {
  }

  lemma {:induction false} SameOriginsAfter(world: World, s: State, e: Event)
    requires RowsStand(s)
    ensures SameOrigins(s, Step(world, s, e))
  {
    RowsUntouched(s);
    hide ClaimNext, AnswerNow, CrashNow, Save, Remove, IsListed;
    match e
    case Subscribe(browser) =>
      hide RowsStand, SameOrigins;
      NewRowIsNew(s, browser);
    case Unsubscribe(subscription) => RemoveKeepsOrigins(s, subscription);
    case Settle(id) =>
      if id in s.workers && s.workers[id].phase.Answered? { RemoveKeepsOrigins(s, s.workers[id].phase.key.subscription); }
    case _ => hide RowsStand;
  }

  lemma {:induction false} SameRows(s: State, t: State)
    requires RowsStand(s) && t.rows == s.rows && t.subscriptions == s.subscriptions
    requires t.nextSubscription == s.nextSubscription && s.clock <= t.clock
    ensures RowsStand(t)
  {
    forall n | n in t.rows ensures RowStands(t, n) { assert RowStands(s, n); }
  }

  /** What a worker holds, or a service took, stays as it is or comes from what was held before. */
  ghost predicate WorkerHeard(world: World, s: State, w: Worker) {
    && (forall i :: 0 <= i < |w.queue| ==> Heard(world, s, w.queue[i]))
    && (!w.phase.Ready? ==> Heard(world, s, w.phase.key))
  }

  lemma {:induction false} HeardStays(world: World, s: State, t: State, k: Key)
    requires SameOrigins(s, t) && Heard(world, s, k)
    ensures Heard(world, t, k)
  {
  }

  lemma {:induction false} ListedIsHeard(world: World, s: State, k: Key)
    requires RowsStand(s) && IsListed(world, s, k)
    ensures Heard(world, s, k)
  {
    assert RowStands(s, k.subscription);
  }

  lemma {:induction false} ClaimStaysHeard(world: World, s: State, id: nat)
    requires id in s.workers && s.workers[id].phase.Ready? && WorkerHeard(world, s, s.workers[id])
    ensures id in ClaimNext(s, id).workers ==> WorkerHeard(world, s, ClaimNext(s, id).workers[id])
  {
    hide Heard;
  }

  lemma {:induction false} WorkerIsHeard(world: World, s: State, id: nat)
    requires KeysStand(world, s) && id in s.workers
    ensures WorkerHeard(world, s, s.workers[id])
  {
    hide Heard;
  }

  predicate SameWork(w: Worker, next: Worker) {
    next.queue == w.queue && (next.phase.Ready? || (!w.phase.Ready? && next.phase.key == w.phase.key))
  }

  lemma {:induction false} AnswerKeepsWork(s: State, other: nat, taken: bool, outcome: Outcome, id: nat)
    requires other in s.workers && s.workers[other].phase.Sending? && id in AnswerNow(s, other, taken, outcome).workers
    ensures id in s.workers && SameWork(s.workers[id], AnswerNow(s, other, taken, outcome).workers[id])
  {
  }

  lemma {:induction false} SettleKeepsWork(s: State, other: nat, id: nat)
    requires other in s.workers && s.workers[other].phase.Answered? && id in SettleNow(s, other).workers
    ensures id in s.workers && SameWork(s.workers[id], SettleNow(s, other).workers[id])
  {
    hide Remove;
    RemoveKeepsWorkers(s, s.workers[other].phase.key.subscription);
  }

  lemma {:induction false} CrashKeepsWork(s: State, other: nat, taken: bool, id: nat)
    requires other in s.workers && id in CrashNow(s, other, taken).workers
    ensures id in s.workers && SameWork(s.workers[id], CrashNow(s, other, taken).workers[id])
  {
  }

  /** Only beginning a pass and claiming change what a worker has in hand. */
  lemma {:induction false} OthersKeepTheirWork(world: World, s: State, e: Event, id: nat)
    requires !e.Begin? && !e.Claim? && id in Step(world, s, e).workers
    ensures id in s.workers && SameWork(s.workers[id], Step(world, s, e).workers[id])
  {
    hide Save, Remove, ClaimNext, AnswerNow, SettleNow, CrashNow, IsListed, CanAnswer;
    match e
    case Subscribe(browser) => SaveKeepsWorkers(s, browser);
    case Unsubscribe(subscription) => RemoveKeepsWorkers(s, subscription);
    case Settle(other) =>
      if other in s.workers && s.workers[other].phase.Answered? { SettleKeepsWork(s, other, id); }
    case Answer(other, taken, outcome) =>
      if other in s.workers && s.workers[other].phase.Sending? && CanAnswer(taken, outcome) {
        AnswerKeepsWork(s, other, taken, outcome, id);
      }
    case Crash(other, taken) => if other in s.workers { CrashKeepsWork(s, other, taken, id); }
    case _ =>
  }

  lemma {:induction false} SaveKeepsWorkers(s: State, browser: Browser)
    ensures Save(s, browser).workers == s.workers
  {
  }

  lemma {:induction false} WorkersStayHeard(world: World, s: State, e: Event, id: nat)
    requires RowsStand(s) && KeysStand(world, s) && id in Step(world, s, e).workers
    ensures WorkerHeard(world, s, Step(world, s, e).workers[id])
  {
    hide Heard, RowsStand, KeysStand;
    if id in s.workers { WorkerIsHeard(world, s, id); }
    if e.Begin? {
      if id !in s.workers {
        forall i | 0 <= i < |e.queue| ensures Heard(world, s, e.queue[i]) {
          ListedIsHeard(world, s, e.queue[i]);
        }
      }
    } else if e.Claim? {
      if e.id == id && id in s.workers && s.workers[id].phase.Ready? { ClaimStaysHeard(world, s, id); }
    } else {
      OthersKeepTheirWork(world, s, e, id);
      hide Step;
    }
  }

  lemma {:induction false} AcceptedStaysHeard(world: World, s: State, e: Event, k: Key)
    requires KeysStand(world, s) && k in Step(world, s, e).accepted
    ensures Heard(world, s, k)
  {
    hide IsDue, IsFor;
    if k !in s.accepted {
      assert e.Answer? || e.Crash?;
      assert WorkerHeard(world, s, s.workers[e.id]);
    }
  }

  lemma {:induction false} StepKeepsKeys(world: World, s: State, e: Event)
    requires RowsStand(s) && KeysStand(world, s)
    ensures KeysStand(world, Step(world, s, e))
  {
    var t := Step(world, s, e);
    StepKeepsRows(world, s, e);
    hide Step;
    forall id | id in t.workers ensures WorkerHeard(world, t, t.workers[id]) {
      WorkersStayHeard(world, s, e, id);
      hide RowsStand, KeysStand, SameOrigins, Heard;
      WorkerStaysHeard(world, s, t, t.workers[id]);
    }
    forall k | k in t.accepted ensures Heard(world, t, k) {
      AcceptedStaysHeard(world, s, e, k);
      HeardStays(world, s, t, k);
    }
    hide RowsStand, SameOrigins, Heard;
    assert KeysStand(world, t) by {
      forall id, i | id in t.workers && 0 <= i < |t.workers[id].queue| ensures Heard(world, t, t.workers[id].queue[i]) {
        assert WorkerHeard(world, t, t.workers[id]);
      }
      forall id | id in t.workers && !t.workers[id].phase.Ready? ensures Heard(world, t, t.workers[id].phase.key) {
        assert WorkerHeard(world, t, t.workers[id]);
      }
    }
  }

  lemma {:induction false} WorkerStaysHeard(world: World, s: State, t: State, w: Worker)
    requires SameOrigins(s, t) && WorkerHeard(world, s, w)
    ensures WorkerHeard(world, t, w)
  {
  }

  lemma {:induction false} RunKeepsRows(world: World, s: State, events: seq<Event>)
    requires RowsStand(s) && KeysStand(world, s)
    ensures RowsStand(Run(world, s, events)) && KeysStand(world, Run(world, s, events))
    decreases |events|
  {
    hide Step, RowsStand, KeysStand;
    if events != [] {
      StepKeepsRows(world, s, events[0]);
      StepKeepsKeys(world, s, events[0]);
      RunKeepsRows(world, Step(world, s, events[0]), events[1..]);
    }
  }

  /**
   * When the same browser is sent one occasion on two rows: only if the earlier row was
   * removed before the later one was inserted, and the occasion is a charge due - or a
   * refusal no older than the later row.
   */
  lemma {:induction false} SecondRowNeedsResubscription(world: World, clock: int, events: seq<Event>, earlier: Key, later: Key)
    requires var s := Run(world, Initial(clock), events);
             && earlier in s.accepted && later in s.accepted
             && earlier.occasion == later.occasion && earlier.subscription < later.subscription
    ensures var s := Run(world, Initial(clock), events);
            && earlier.subscription in s.rows && later.subscription in s.rows
            && (s.rows[earlier.subscription].browser == s.rows[later.subscription].browser ==>
                  && Replaced(s.rows[earlier.subscription], s.rows[later.subscription])
                  && earlier.subscription !in s.subscriptions
                  && IsFor(world, s.rows[later.subscription].insertedAt, later.occasion))
  {
    RunKeepsRows(world, Initial(clock), events);
    var s := Run(world, Initial(clock), events);
    assert Heard(world, s, earlier) && Heard(world, s, later);
  }

  predicate IsRowOf(s: State, browser: Browser, n: nat) {
    n in s.rows && s.rows[n].browser == browser
  }

  /** How often services took `o` for `browser`, over its first `n` rows; how often without our being told. */
  function TakenFor(s: State, browser: Browser, o: Occasion, n: nat): nat {
    if n == 0 then 0
    else TakenFor(s, browser, o, n - 1) + if IsRowOf(s, browser, n - 1) then s.accepted[Key(n - 1, o)] else 0
  }

  function LostFor(s: State, browser: Browser, o: Occasion, n: nat): nat {
    if n == 0 then 0
    else LostFor(s, browser, o, n - 1) + if IsRowOf(s, browser, n - 1) then s.lost[Key(n - 1, o)] else 0
  }

  /** The browser's rows that may hear of `o` at all: for a refusal, those inserted before it. */
  function RowsFor(world: World, s: State, browser: Browser, o: Occasion, n: nat): nat {
    if n == 0 then 0
    else RowsFor(world, s, browser, o, n - 1)
         + if IsRowOf(s, browser, n - 1) && IsFor(world, s.rows[n - 1].insertedAt, o) then 1 else 0
  }

  lemma {:induction false} TakenPerRow(world: World, s: State, browser: Browser, o: Occasion, n: nat)
    requires KeysStand(world, s) && forall k :: OnceOnly(world, s, k)
    ensures TakenFor(s, browser, o, n) <= RowsFor(world, s, browser, o, n) + LostFor(s, browser, o, n)
  {
    if n > 0 {
      TakenPerRow(world, s, browser, o, n - 1);
      var k := Key(n - 1, o);
      assert OnceOnly(world, s, k);
      if s.accepted[k] > 0 { assert k in s.accepted && Heard(world, s, k); }
    }
  }

  /**
   * A browser is sent an occasion at most once for each row it had that may hear of it,
   * plus once for each lost answer: so at most once, when answers arrive, unless it
   * was removed and came back.
   */
  lemma {:induction false} AtMostOncePerBrowser(world: World, clock: int, events: seq<Event>, browser: Browser, o: Occasion)
    requires Configured(world)
    ensures var s := Run(world, Initial(clock), events);
            var n := s.nextSubscription;
            TakenFor(s, browser, o, n) <= RowsFor(world, s, browser, o, n) + LostFor(s, browser, o, n)
  {
    RunKeepsInv(world, Initial(clock), events);
    RunKeepsRows(world, Initial(clock), events);
    var s := Run(world, Initial(clock), events);
    TakenPerRow(world, s, browser, o, s.nextSubscription);
  }

  /**
   * A browser that unsubscribes and subscribes again hears of the same charge twice, with
   * every answer told: the claim goes with the old row, and the scan of charges due does
   * not ask since when a row is there.
   */
  lemma {:induction false} ResubscribedHearsTwice(world: World, clock: int, o: Occasion, browser: Browser)
    requires o.Due? && IsDue(world, o, clock)
    ensures var s := Run(world, Step(world, Initial(clock), Subscribe(browser)), OnePass(Key(0, o)));
            var t := Run(world, Step(world, Step(world, s, Unsubscribe(0)), Subscribe(browser)), OnePass(Key(1, o)));
            && t.accepted[Key(0, o)] == 1 && t.accepted[Key(1, o)] == 1 && t.lost == multiset{}
            && 0 in t.rows && 1 in t.rows && t.rows[0].browser == t.rows[1].browser == browser
  {
    var first := Initial(clock).(subscriptions := {0}, nextSubscription := 1, rows := map[0 := Row(browser, clock, clock, None)]);
    assert Step(world, Initial(clock), Subscribe(browser)) == first by { assert LiveRows(Initial(clock), browser) == {}; }
    var s := first.(claims := map[Key(0, o) := clock], accepted := multiset{Key(0, o)});
    assert Run(world, first, OnePass(Key(0, o))) == s by {
      hide *;
      FirstIsListed(world, first, Key(0, o));
      OnePassDelivers(world, first, Key(0, o));
    }
    BackOnANewRow(world, s, o, browser);
    var back := Step(world, Step(world, s, Unsubscribe(0)), Subscribe(browser));
    OnePassDelivers(world, back, Key(1, o));
  }

  lemma {:induction false} FirstIsListed(world: World, s: State, k: Key)
    requires k.subscription in s.subscriptions && k.subscription in s.rows && k.occasion.Due? && IsDue(world, k.occasion, s.clock)
    ensures IsListed(world, s, k)
  {
  }

  lemma {:induction false} BackOnANewRow(world: World, s: State, o: Occasion, browser: Browser)
    requires s.subscriptions == {0} && s.nextSubscription == 1 && s.rows == map[0 := Row(browser, s.clock, s.clock, None)]
    requires s.claims.Keys == {Key(0, o)} && o.Due? && IsDue(world, o, s.clock) && s.workers == map[]
    ensures var t := Step(world, Step(world, s, Unsubscribe(0)), Subscribe(browser));
            && IsListed(world, t, Key(1, o)) && t.claims == map[] && t.workers == map[]
            && t.accepted == s.accepted && t.lost == s.lost
            && 0 in t.rows && 1 in t.rows && t.rows[0].browser == t.rows[1].browser == browser
  {
    hide IsDue;
    var gone := Step(world, s, Unsubscribe(0));
    assert gone.subscriptions == {} && gone.claims == map[];
    assert LiveRows(gone, browser) == {};
  }

  /** One worker begins a pass over one occasion, sends it, is told so, and ends. */
  function OnePass(k: Key): seq<Event> {
    [Begin(0, [k]), Claim(0), Answer(0, true, Delivered), Settle(0), Claim(0)]
  }

  lemma {:induction false} OnePassDelivers(world: World, s: State, k: Key)
    requires s.workers == map[] && k !in s.claims && IsListed(world, s, k)
    ensures Run(world, s, OnePass(k)) == s.(claims := s.claims[k := s.clock], accepted := s.accepted + multiset{k})
  {
    BeginAndClaim(world, s, k);
    var b := s.(claims := s.claims[k := s.clock], workers := map[0 := Worker(s.clock, [], {}, Sending(k))]);
    DeliverAndEnd(world, b, k);
    RunFive(world, s, Begin(0, [k]), Claim(0), Answer(0, true, Delivered), Settle(0), Claim(0));
  }

  lemma {:induction false} EmptyQueueEnds(s: State)
    requires s.workers == map[0 := Worker(s.clock, [], {}, Ready)]
    ensures ClaimNext(s, 0) == s.(workers := map[])
  {
  }

  lemma {:induction false} DeliverAndEnd(world: World, s: State, k: Key)
    requires s.workers == map[0 := Worker(s.clock, [], {}, Sending(k))]
    ensures Step(world, Step(world, Step(world, s, Answer(0, true, Delivered)), Settle(0)), Claim(0))
            == s.(workers := map[], accepted := s.accepted + multiset{k})
  {
    hide Save, Remove, ClaimNext, CrashNow;
    var a := Step(world, s, Answer(0, true, Delivered));
    assert a == s.(workers := map[0 := Worker(s.clock, [], {}, Answered(k, Delivered))], accepted := s.accepted + multiset{k});
    var b := Step(world, a, Settle(0));
    assert b == a.(workers := map[0 := Worker(s.clock, [], {}, Ready)]);
    EmptyQueueEnds(b);
  }

  /** No answer of a push that was taken went missing. */
  ghost predicate AnswersArrive(events: seq<Event>) {
    forall i :: 0 <= i < |events| ==> !(events[i].Answer? && events[i].taken && events[i].outcome.Unreachable?)
  }

  lemma {:induction false} NothingLost(world: World, s: State, events: seq<Event>)
    requires AnswersArrive(events)
    ensures Run(world, s, events).lost == s.lost
    decreases |events|
  {
    if events != [] {
      assert !(events[0].Answer? && events[0].taken && events[0].outcome.Unreachable?);
      NothingLost(world, Step(world, s, events[0]), events[1..]);
    }
  }

  /** When every answer arrives, a row is sent an occasion at most once. */
  lemma {:induction false} AtMostOnceWhenAnswersArrive(world: World, clock: int, events: seq<Event>, k: Key)
    requires Configured(world) && AnswersArrive(events)
    ensures Run(world, Initial(clock), events).accepted[k] <= 1
  {
    AtMostOnce(world, clock, events, k);
    NothingLost(world, Initial(clock), events);
  }

  /**
   * A push taken just as our request timed out is reported unreachable, its claim is
   * given back, and the next pass sends it again: for any occasion that is due.
   */
  lemma {:induction false} LostAnswerSendsTwice(world: World, since: int, wait: nat, o: Occasion, browser: Browser)
    requires IsDue(world, o, since + wait) && IsFor(world, since, o)
    ensures var k := Key(0, o);
            var once := [Begin(0, [k]), Claim(0), Answer(0, true, Unreachable), Settle(0), Crash(0, false)];
            var s := Step(world, Step(world, Initial(since), Subscribe(browser)), Tick(wait));
            Run(world, Run(world, s, once), once).accepted[k] == 2
  {
    var k := Key(0, o);
    assert LiveRows(Initial(since), browser) == {};
    var s := Step(world, Step(world, Initial(since), Subscribe(browser)), Tick(wait));
    assert s.clock == since + wait && s.rows[0].createdAt == since && s.subscriptions == {0};
    hide Step;
    OnePassTakesIt(world, s, k);
    var once := [Begin(0, [k]), Claim(0), Answer(0, true, Unreachable), Settle(0), Crash(0, false)];
    OnePassTakesIt(world, Run(world, s, once), k);
  }

  lemma {:induction false} OnePassTakesIt(world: World, s: State, k: Key)
    requires s.workers == map[] && k !in s.claims && IsListed(world, s, k)
    ensures var once := [Begin(0, [k]), Claim(0), Answer(0, true, Unreachable), Settle(0), Crash(0, false)];
            var t := Run(world, s, once);
            t == s.(accepted := s.accepted + multiset{k}, lost := s.lost + multiset{k})
  {
    hide Step;
    BeginAndClaim(world, s, k);
    var b := Step(world, Step(world, s, Begin(0, [k])), Claim(0));
    LoseTheAnswer(world, b, k, s.claims);
    RunFive(world, s, Begin(0, [k]), Claim(0), Answer(0, true, Unreachable), Settle(0), Crash(0, false));
  }

  lemma {:induction false} BeginAndClaim(world: World, s: State, k: Key)
    requires s.workers == map[] && k !in s.claims && IsListed(world, s, k)
    ensures Step(world, Step(world, s, Begin(0, [k])), Claim(0))
            == s.(claims := s.claims[k := s.clock], workers := map[0 := Worker(s.clock, [], {}, Sending(k))])
  {
    hide IsDue, IsFor;
    var a := Step(world, s, Begin(0, [k]));
    assert a == s.(workers := map[0 := Worker(s.clock, [k], {}, Ready)]);
    assert [k][1..] == [];
  }

  lemma {:induction false} LoseTheAnswer(world: World, s: State, k: Key, before: map<Key, int>)
    requires s.workers == map[0 := Worker(s.clock, [], {}, Sending(k))]
    requires k !in before && s.claims == before[k := s.clock]
    ensures Step(world, Step(world, Step(world, s, Answer(0, true, Unreachable)), Settle(0)), Crash(0, false))
            == s.(claims := before, workers := map[], accepted := s.accepted + multiset{k}, lost := s.lost + multiset{k})
  {
    var a := Step(world, s, Answer(0, true, Unreachable));
    assert a.workers == map[0 := Worker(s.clock, [], {}, Answered(k, Unreachable))];
    var b := Step(world, a, Settle(0));
    assert b.claims == before && b.workers == map[0 := Worker(s.clock, [], {}, Ready)];
    assert Step(world, b, Crash(0, false)).workers == map[];
  }

  lemma {:induction false} RunFive(world: World, s: State, a: Event, b: Event, c: Event, d: Event, e: Event)
    ensures Run(world, s, [a, b, c, d, e])
            == Step(world, Step(world, Step(world, Step(world, Step(world, s, a), b), c), d), e)
  {
    hide Step;
    var s1 := Step(world, s, a);
    var s2 := Step(world, s1, b);
    var s3 := Step(world, s2, c);
    var s4 := Step(world, s3, d);
    assert Run(world, s4, [e]) == Run(world, Step(world, s4, e), []);
    assert [d, e][1..] == [e] && [c, d, e][1..] == [d, e] && [b, c, d, e][1..] == [c, d, e];
    assert [a, b, c, d, e][1..] == [b, c, d, e];
    assert Run(world, s2, [c, d, e]) == Run(world, s3, [d, e]);
    assert Run(world, s, [a, b, c, d, e]) == Run(world, s1, [b, c, d, e]);
  }

  /** What retention deletes has expired, and no pass has it in hand. */
  lemma {:induction false} RetentionPassesExpired(world: World, s: State, k: Key, days: int)
    requires Configured(world) && Inv(world, s) && k in s.claims
    requires days >= MIN_RETENTION_DAYS && s.claims[k] < s.clock - days * DAY_MS
    ensures Expired(world, s, k) && forall id :: id in s.workers ==> k !in s.workers[id].queue
  {
    assert ClaimStands(world, s, k);
    DueOnlyInItsWindow(world, k.occasion, s.clock);
    forall id | id in s.workers ensures k !in s.workers[id].queue {
      assert WorkerStands(world, s, s.workers[id]);
      if k in s.workers[id].queue {
        DueOnlyInItsWindow(world, k.occasion, s.workers[id].startedAt);
        assert false;
      }
    }
  }

  /**
   * A claim is given back only after `unreachable`; otherwise it goes with its
   * subscription, whose number never comes back, or by retention, when no pass can have
   * its occasion in hand any more.
   */
  lemma {:induction false} ClaimsLeaveOnlySo(world: World, s: State, e: Event, k: Key)
    requires Configured(world) && Inv(world, s) && k in s.claims && k !in Step(world, s, e).claims
    ensures || (e.Settle? && e.id in s.workers && s.workers[e.id].phase == Answered(k, Unreachable))
            || (k.subscription !in Step(world, s, e).subscriptions && k.subscription < Step(world, s, e).nextSubscription)
            || (e.Retain? && Expired(world, s, k) && forall id :: id in s.workers ==> k !in s.workers[id].queue)
  {
    hide LiveRows, IsListed, CanAnswer;
    assert ClaimStands(world, s, k);
    if e.Retain? {
      RetentionPassesExpired(world, s, k, e.days);
    } else {
      hide IsDue, Expired;
    }
  }

  // ---------------------------------------------------------------- one worker's code

  datatype Tables = Tables(subscriptions: set<nat>, claims: map<Key, int>)

  /** One delivery without interruption, on the two tables: the claim, and what the answer leaves of it. */
  function Delivery(t: Tables, key: Key, gone: set<nat>, clock: int, outcome: Outcome): Tables {
    if key.subscription in gone || key in t.claims then t
    else match outcome
      case Gone => Tables(t.subscriptions - {key.subscription}, Without(t.claims, key.subscription))
      case Unreachable => t
      case _ => t.(claims := t.claims[key := clock])
  }

  /** The three steps of one worker, run back to back, are exactly `Delivery`. */
  lemma {:induction false} UninterruptedDelivery(world: World, s: State, id: nat, taken: bool, outcome: Outcome)
    requires id in s.workers && s.workers[id].phase.Ready? && s.workers[id].queue != [] && CanAnswer(taken, outcome)
    requires var key := s.workers[id].queue[0];
             key.subscription in s.workers[id].gone || key in s.claims || key.subscription in s.subscriptions
    ensures var key := s.workers[id].queue[0];
            var after := Step(world, Step(world, Step(world, s, Claim(id)), Answer(id, taken, outcome)), Settle(id));
            && Tables(after.subscriptions, after.claims)
               == Delivery(Tables(s.subscriptions, s.claims), key, s.workers[id].gone, s.clock, outcome)
            && id in after.workers && after.workers[id].queue == s.workers[id].queue[1..]
  {
    var w := s.workers[id];
    var key := w.queue[0];
    if key.subscription !in w.gone && key !in s.claims {
      var a := s.(claims := s.claims[key := s.clock], workers := s.workers[id := w.(queue := w.queue[1..], phase := Sending(key))]);
      assert Step(world, s, Claim(id)) == a by { hide Save, Remove, CrashNow, AnswerNow, SettleNow, IsListed; }
      AnswerAndSettle(world, s, a, id, taken, outcome);
    } else {
      hide Save, Remove, CrashNow, AnswerNow, SettleNow, IsListed;
    }
  }

  lemma {:induction false} AnswerAndSettle(world: World, s: State, a: State, id: nat, taken: bool, outcome: Outcome)
    requires id in a.workers && a.workers[id].phase.Sending? && CanAnswer(taken, outcome)
    requires var key := a.workers[id].phase.key; key !in s.claims && a.claims == s.claims[key := s.clock]
    requires a.subscriptions == s.subscriptions
    ensures var key := a.workers[id].phase.key;
            var after := Step(world, Step(world, a, Answer(id, taken, outcome)), Settle(id));
            && after.subscriptions == (if outcome.Gone? then s.subscriptions - {key.subscription} else s.subscriptions)
            && after.claims == (if outcome.Gone? then Without(s.claims, key.subscription)
                                else if outcome.Unreachable? then s.claims else s.claims[key := s.clock])
            && id in after.workers && after.workers[id].queue == a.workers[id].queue
  {
    hide Save, ClaimNext, CrashNow, IsListed;
    var key := a.workers[id].phase.key;
    var b := Step(world, a, Answer(id, taken, outcome));
    assert b.workers[id] == a.workers[id].(phase := Answered(key, outcome)) && b.claims == a.claims && b.subscriptions == a.subscriptions;
    assert Step(world, b, Settle(id)) == SettleNow(b, id);
    hide Step, AnswerNow, Without;
    ClaimAndBack(s.claims, key, s.clock);
  }

  lemma {:induction false} ClaimAndBack(claims: map<Key, int>, key: Key, clock: int)
    requires key !in claims
    ensures claims[key := clock] - {key} == claims
    ensures Without(claims[key := clock], key.subscription) == Without(claims, key.subscription)
  {
  }

  ghost predicate AllClaimed(queue: seq<Key>, answers: seq<Outcome>, subscriptions: set<nat>, claims: map<Key, int>)
    requires |answers| == |queue|
  {
    forall i :: 0 <= i < |queue| && queue[i].subscription in subscriptions && !answers[i].Unreachable? ==> queue[i] in claims
  }

  datatype Counts = Counts(sent: nat, gone: nat, failed: nat)

  class Notifier {
    var subscriptions: set<nat>
    var claims: map<Key, int>

    constructor (subscriptions: set<nat>)
      ensures this.subscriptions == subscriptions && claims == map[]
    {
      this.subscriptions, claims := subscriptions, map[];
    }

    ghost function Now(): Tables
      reads this
    {
      Tables(subscriptions, claims)
    }

    /**
     * `sends` counts the requests made: none unless the claim was taken here. Claiming for
     * a subscription whose row is gone fails the insert.
     */
    method Deliver(key: Key, clock: int, answer: Outcome, gone: set<nat>, counts: Counts)
      returns (gone': set<nat>, counts': Counts, sends: nat, threw: bool)
      modifies this
      ensures threw <==> key.subscription !in gone && key !in old(claims) && key.subscription !in old(subscriptions)
      ensures Now() == if threw then old(Now()) else Delivery(old(Now()), key, gone, clock, answer)
      ensures sends == if threw || key.subscription in gone || key in old(claims) then 0 else 1
      ensures counts'.sent + counts'.gone + counts'.failed == counts.sent + counts.gone + counts.failed + sends
      ensures gone' == if sends == 1 && answer == Gone then gone + {key.subscription} else gone
      // a claim is kept unless the service was not reached; a browser that is gone goes, with all its claims
      ensures sends == 0 ==> subscriptions == old(subscriptions) && claims == old(claims) && counts' == counts
      ensures sends == 1 ==>
                match answer
                case Delivered =>
                  subscriptions == old(subscriptions) && claims == old(claims)[key := clock] && counts'.sent == counts.sent + 1
                case Refused =>
                  subscriptions == old(subscriptions) && claims == old(claims)[key := clock] && counts'.failed == counts.failed + 1
                case Unreachable =>
                  subscriptions == old(subscriptions) && claims == old(claims) && counts'.failed == counts.failed + 1
                case Gone =>
                  && subscriptions == old(subscriptions) - {key.subscription} && counts'.gone == counts.gone + 1
                  && (forall k :: k in claims <==> k in old(claims) && k.subscription != key.subscription)
                  && forall k :: k in claims ==> claims[k] == old(claims)[k]
    {
      gone', counts', sends, threw := gone, counts, 0, false;
      if key.subscription in gone { return; }
      if key in claims { return; }
      if key.subscription !in subscriptions { threw := true; return; }
      claims := claims[key := clock];
      sends := 1;
      match answer {
        case Delivered => counts' := counts.(sent := counts.sent + 1);
        case Gone =>
          subscriptions := subscriptions - {key.subscription};
          claims := Without(claims, key.subscription);
          gone' := gone + {key.subscription};
          counts' := counts.(gone := counts.gone + 1);
        case Refused => counts' := counts.(failed := counts.failed + 1);
        case Unreachable =>
          claims := claims - {key};
          counts' := counts.(failed := counts.failed + 1);
      }
    }

    /**
     * One pass over what is due, each with the answer its push service gives. Every
     * request was made on a claim of this pass; a pass that runs to its end leaves an
     * occasion of a live subscription unclaimed only if its service was unreachable, and
     * removes exactly the subscriptions declared gone.
     */
    method Pass(queue: seq<Key>, clock: int, answers: seq<Outcome>) returns (counts: Counts, sends: nat, threw: bool)
      requires |answers| == |queue|
      modifies this
      ensures sends == counts.sent + counts.gone + counts.failed <= |queue|
      ensures subscriptions <= old(subscriptions)
      ensures forall k :: k in old(claims) && (k.subscription in subscriptions || k.subscription !in old(subscriptions)) ==>
                k in claims && claims[k] == old(claims)[k]
      ensures forall k :: k in claims && k !in old(claims) ==> k in queue && claims[k] == clock
      ensures !threw ==> AllClaimed(queue, answers, subscriptions, claims)
      ensures forall n :: n in old(subscriptions) && n !in subscriptions ==>
                exists i :: 0 <= i < |queue| && queue[i].subscription == n && answers[i].Gone?
    {
      counts, sends, threw := Counts(0, 0, 0), 0, false;
      var gone: set<nat> := {};
      for i := 0 to |queue|
        invariant sends == counts.sent + counts.gone + counts.failed <= i
        invariant subscriptions == old(subscriptions) - gone && gone <= old(subscriptions)
        invariant forall n :: n in gone ==> exists j :: 0 <= j < i && queue[j].subscription == n && answers[j].Gone?
        invariant forall k :: k in old(claims) && k.subscription !in gone ==> k in claims && claims[k] == old(claims)[k]
        invariant forall k :: k in claims && k !in old(claims) ==> k in queue && claims[k] == clock
        invariant forall j :: 0 <= j < i && queue[j].subscription in subscriptions && !answers[j].Unreachable?
                    ==> queue[j] in claims
      {
        var made;
        gone, counts, made, threw := Deliver(queue[i], clock, answers[i], gone, counts);
        if threw { return; }
        sends := sends + made;
      }
    }
  }
}
