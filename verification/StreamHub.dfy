/**
 * The fan-out behind the streams: notifications handled one at a time in the order they
 * came, each read once and handed to every open stream of its owner.
 */
module StreamHub {
  import opened Shared
  import StreamOutbox

  type Message = StreamOutbox.Message

  datatype Notice = RowNotice(row: string, owner: Option<string>) | WalletNotice(wallet: string)

  /** One link of the queue: a notification - `None` when its payload has an unknown shape - or a general resync. */
  datatype Job = Notify(notice: Option<Notice>) | ResyncAll

  datatype ReadResult = Failed | Missing | Found(version: nat)

  /** What became of a job. */
  datatype Handled = Nothing | To(owner: string, message: Message) | ToAll(message: Message)

  predicate Reaches(h: Handled, owner: string) {
    h.ToAll? || (h.To? && h.owner == owner)
  }

  function MessagesFor(handled: seq<Handled>, owner: string): seq<Message> {
    if handled == [] then []
    else
      var last := handled[|handled| - 1];
      MessagesFor(handled[..|handled| - 1], owner) + if Reaches(last, owner) then [last.message] else []
  }

  function OwnerOf(notice: Notice): Option<string> {
    if notice.WalletNotice? then Some(notice.wallet) else notice.owner
  }

  /** A read row that is there is sent, one that is not there is nothing, and a failed read is a `resync`. */
  function AfterRead(row: string, owner: string, result: ReadResult): Handled {
    match result
    case Failed => To(owner, StreamOutbox.Resync)
    case Missing => Nothing
    case Found(version) => To(owner, StreamOutbox.Update(row, version))
  }

  /** `h` is a way job `job` may end. */
  ghost predicate Answers(job: Job, h: Handled) {
    match job
    case ResyncAll => h == ToAll(StreamOutbox.Resync)
    case Notify(None) => h == Nothing
    case Notify(Some(notice)) =>
      || h == Nothing
      || (OwnerOf(notice).Some? && notice.WalletNotice? && h == To(OwnerOf(notice).value, StreamOutbox.Resync))
      || (OwnerOf(notice).Some? && notice.RowNotice?
          && exists result :: h == AfterRead(notice.row, OwnerOf(notice).value, result))
  }

  ghost predicate IsUpdate(h: Handled) {
    !h.Nothing? && h.message.Update?
  }

  /** No row's older state comes after its newer one. */
  ghost predicate InOrder(handled: seq<Handled>, upTo: nat) {
    && (forall i :: 0 <= i < |handled| && IsUpdate(handled[i]) ==> handled[i].message.version <= upTo)
    && forall i, j :: 0 <= i < j < |handled| && IsUpdate(handled[i]) && IsUpdate(handled[j]) ==>
         handled[i].message.version <= handled[j].message.version
  }

  ghost predicate Ascending(messages: seq<Message>) {
    forall i, j :: 0 <= i < j < |messages| && messages[i].Update? && messages[j].Update? ==>
      messages[i].version <= messages[j].version
  }

  lemma {:induction false} StreamsSeeRowsInOrder(handled: seq<Handled>, owner: string, upTo: nat)
    requires InOrder(handled, upTo)
    ensures var messages := MessagesFor(handled, owner);
            && Ascending(messages)
            && forall i :: 0 <= i < |messages| && messages[i].Update? ==> messages[i].version <= upTo
  {
    if handled != [] {
      var n := |handled| - 1;
      var last := handled[n];
      var bound := if IsUpdate(last) then last.message.version else upTo;
      assert InOrder(handled[..n], bound);
      StreamsSeeRowsInOrder(handled[..n], owner, bound);
    }
  }

  /** Everything handled since a stream opened that concerns it is among its messages, in that order. */
  lemma {:induction false} HandledIsSent(handled: seq<Handled>, owner: string, k: nat)
    requires k < |handled| && Reaches(handled[k], owner)
    ensures var i := |MessagesFor(handled[..k], owner)|;
            i < |MessagesFor(handled, owner)| && MessagesFor(handled, owner)[i] == handled[k].message
    decreases |handled|
  {
    var n := |handled| - 1;
    if k < n {
      HandledIsSent(handled[..n], owner, k);
      assert handled[..n][..k] == handled[..k];
    }
  }

  // ---------------------------------------------------------------- what the hub keeps

  /** The sets hold exactly the live subscriptions, and no owner without one. */
  ghost predicate SetsMatch(byOwner: map<string, set<nat>>, live: map<nat, string>) {
    && (forall o :: o in byOwner ==> byOwner[o] != {})
    && (forall o, id :: Belongs(byOwner, live, o, id))
  }

  ghost predicate Belongs(byOwner: map<string, set<nat>>, live: map<nat, string>, owner: string, id: nat) {
    id in StreamsOf(byOwner, owner) <==> id in live && live[id] == owner
  }

  function StreamsOf(byOwner: map<string, set<nat>>, owner: string): set<nat> {
    if owner in byOwner then byOwner[owner] else {}
  }

  /** Jobs are done in the order they were queued, each once. */
  ghost predicate QueueMatches(notified: seq<Job>, handled: seq<Handled>, reading: Option<Notice>, queue: seq<Job>) {
    var begun := |handled| + if reading.Some? then 1 else 0;
    && begun <= |notified| && queue == notified[begun..]
    && (forall k :: 0 <= k < |handled| ==> Answers(notified[k], handled[k]))
    && (reading.Some? ==> notified[|handled|] == Notify(reading) && reading.value.RowNotice? && reading.value.owner.Some?)
  }

  /** A stream: whose it is, how many jobs were done when it opened, and its outbox with the writer draining it. */
  datatype Stream = Stream(owner: string, since: nat, outbox: StreamOutbox.State)

  /**
   * A stream's outbox was sent exactly what was handled for its owner since it opened, is
   * what its writer's steps keep it, and its writer has not left.
   */
  ghost predicate Told(handled: seq<Handled>, s: Stream, maxBacklog: nat) {
    && s.since <= |handled| && s.outbox.sent == MessagesFor(handled[s.since..], s.owner)
    && StreamOutbox.Inv(s.outbox, maxBacklog) && !s.outbox.phase.Ended?
  }

  ghost predicate AllTold(handled: seq<Handled>, streams: map<nat, Stream>, maxBacklog: nat) {
    forall id :: id in streams ==> Told(handled, streams[id], maxBacklog)
  }

  function Opened(owner: string, since: nat): Stream {
    Stream(owner, since, StreamOutbox.Initial())
  }

  ghost function Owners(streams: map<nat, Stream>): map<nat, string> {
    map id | id in streams :: streams[id].owner
  }

  /** A subscriber's `send`: into the outbox, waking the writer. */
  function SendTo(s: Stream, h: Handled, maxBacklog: nat): Stream {
    if Reaches(h, s.owner) then AfterEvent(s, StreamOutbox.Send(h.message), maxBacklog) else s
  }

  function AfterEvent(s: Stream, e: StreamOutbox.Event, maxBacklog: nat): Stream {
    s.(outbox := StreamOutbox.Step(s.outbox, maxBacklog, e))
  }

  lemma {:induction false} SendKeepsTold(handled: seq<Handled>, s: Stream, h: Handled, maxBacklog: nat)
    requires Told(handled, s, maxBacklog)
    ensures Told(handled + [h], SendTo(s, h, maxBacklog), maxBacklog)
  {
    hide StreamOutbox.Inv, StreamOutbox.Pushed, StreamOutbox.MarksPushed;
    var now := (handled + [h])[s.since..];
    assert now == handled[s.since..] + [h] && now[..|now| - 1] == handled[s.since..];
    if Reaches(h, s.owner) { StreamOutbox.StepKeepsInv(s.outbox, maxBacklog, StreamOutbox.Send(h.message)); }
  }

  lemma {:induction false} RecordKeepsTold(handled: seq<Handled>, streams: map<nat, Stream>, h: Handled, maxBacklog: nat)
    requires AllTold(handled, streams, maxBacklog)
    ensures AllTold(handled + [h], map id | id in streams :: SendTo(streams[id], h, maxBacklog), maxBacklog)
  {
    hide Told, SendTo;
    forall id | id in streams ensures Told(handled + [h], SendTo(streams[id], h, maxBacklog), maxBacklog) {
      SendKeepsTold(handled, streams[id], h, maxBacklog);
    }
  }

  /** The same streams, and each of `owner` - or each, without one - was sent exactly `more`. */
  ghost predicate Grew(before: map<nat, Stream>, after: map<nat, Stream>, owner: Option<string>, more: seq<Message>) {
    && after.Keys == before.Keys
    && forall id :: id in before ==>
         && after[id].owner == before[id].owner && after[id].since == before[id].since
         && after[id].outbox.sent
            == before[id].outbox.sent + (if owner.None? || owner.value == before[id].owner then more else [])
  }

  lemma {:induction false} SendsAreHeard(handled: seq<Handled>, streams: map<nat, Stream>, h: Handled, maxBacklog: nat)
    requires AllTold(handled, streams, maxBacklog)
    ensures var after := map id | id in streams :: SendTo(streams[id], h, maxBacklog);
            Heard(streams, after, h) && Owners(after) == Owners(streams)
  {
    hide Told, SendTo;
    forall id | id in streams
      ensures var s, t := streams[id], SendTo(streams[id], h, maxBacklog);
              && t.owner == s.owner && t.since == s.since
              && t.outbox.sent == s.outbox.sent + if Reaches(h, s.owner) then [h.message] else []
    {
      SendIsHeard(handled, streams[id], h, maxBacklog);
    }
  }

  lemma {:induction false} SendIsHeard(handled: seq<Handled>, s: Stream, h: Handled, maxBacklog: nat)
    requires Told(handled, s, maxBacklog)
    ensures var t := SendTo(s, h, maxBacklog);
            && t.owner == s.owner && t.since == s.since
            && t.outbox.sent == s.outbox.sent + if Reaches(h, s.owner) then [h.message] else []
  {
    hide StreamOutbox.Inv, StreamOutbox.Pushed, StreamOutbox.MarksPushed, StreamOutbox.Woken;
  }

  ghost predicate Heard(before: map<nat, Stream>, after: map<nat, Stream>, h: Handled) {
    match h
    case Nothing => Grew(before, after, None, [])
    case To(owner, m) => Grew(before, after, Some(owner), [m])
    case ToAll(m) => Grew(before, after, None, [m])
  }

  lemma {:induction false} NobodyHears(before: map<nat, Stream>, after: map<nat, Stream>, owner: string, more: seq<Message>)
    requires Grew(before, after, None, []) && forall id :: id in before ==> before[id].owner != owner
    ensures Grew(before, after, Some(owner), more)
  {
  }

  lemma {:induction false} GoneRowsAreNotHeard(before: map<nat, Stream>, after: map<nat, Stream>, owner: Option<string>)
    requires Grew(before, after, None, [])
    ensures Grew(before, after, owner, [])
  {
  }

  lemma {:induction false} SameStreams(streams: map<nat, Stream>)
    ensures Grew(streams, streams, None, [])
  {
  }

  lemma {:induction false} OwnersAre(streams: map<nat, Stream>, owner: string)
    ensures (exists id :: id in Owners(streams) && Owners(streams)[id] == owner)
            <==> exists id :: id in streams && streams[id].owner == owner
  {
    if id :| id in streams && streams[id].owner == owner { assert id in Owners(streams) && Owners(streams)[id] == owner; }
  }

  /** Nothing but a push changes what an outbox was sent. */
  lemma {:induction false} WriterKeepsTold(handled: seq<Handled>, s: Stream, e: StreamOutbox.Event, maxBacklog: nat)
    requires Told(handled, s, maxBacklog) && !e.Send?
    requires !AfterEvent(s, e, maxBacklog).outbox.phase.Ended?
    ensures Told(handled, AfterEvent(s, e, maxBacklog), maxBacklog)
  {
    hide StreamOutbox.Inv, StreamOutbox.Pushed, StreamOutbox.MarksPushed;
    StreamOutbox.StepKeepsInv(s.outbox, maxBacklog, e);
  }

  lemma {:induction false} WriterSendsNothing(s: Stream, e: StreamOutbox.Event, maxBacklog: nat)
    requires !e.Send?
    ensures var t := AfterEvent(s, e, maxBacklog);
            t.owner == s.owner && t.since == s.since && t.outbox.sent == s.outbox.sent
  {
  }

  lemma {:induction false} OpenKeepsSets(byOwner: map<string, set<nat>>, live: map<nat, string>, id: nat, owner: string)
    requires SetsMatch(byOwner, live) && id !in live
    ensures SetsMatch(byOwner[owner := StreamsOf(byOwner, owner) + {id}], live[id := owner])
    ensures |live[id := owner]| == |live| + 1
  {
    var next, now := byOwner[owner := StreamsOf(byOwner, owner) + {id}], live[id := owner];
    forall o, n ensures Belongs(next, now, o, n) {
      assert Belongs(byOwner, live, o, n);
    }
  }

  lemma {:induction false} CloseKeepsSets(byOwner: map<string, set<nat>>, live: map<nat, string>, id: nat, owner: string)
    requires SetsMatch(byOwner, live) && owner in byOwner && id in byOwner[owner]
    ensures var rest := byOwner[owner] - {id};
            SetsMatch(if rest == {} then byOwner - {owner} else byOwner[owner := rest], live - {id})
    ensures id in live && |live - {id}| == |live| - 1
  {
    var rest := byOwner[owner] - {id};
    var next := if rest == {} then byOwner - {owner} else byOwner[owner := rest];
    assert Belongs(byOwner, live, owner, id);
    forall o, n ensures Belongs(next, live - {id}, o, n) {
      assert Belongs(byOwner, live, o, n) && Belongs(byOwner, live, o, id);
    }
    assert (live - {id}).Keys == live.Keys - {id};
  }

  lemma {:induction false} StreamOfOwner(byOwner: map<string, set<nat>>, live: map<nat, string>, owner: string)
    requires SetsMatch(byOwner, live)
    ensures owner in byOwner <==> exists id :: id in live && live[id] == owner
  {
    if owner in byOwner {
      var id :| id in byOwner[owner];
      assert Belongs(byOwner, live, owner, id);
    }
    if id :| id in live && live[id] == owner { assert Belongs(byOwner, live, owner, id); }
  }

  lemma {:induction false} SettleKeepsQueue(notified: seq<Job>, handled: seq<Handled>, queue: seq<Job>, h: Handled)
    requires QueueMatches(notified, handled, None, queue) && queue != [] && Answers(queue[0], h)
    ensures QueueMatches(notified, handled + [h], None, queue[1..])
  {
    var now := handled + [h];
    forall k | 0 <= k < |now| ensures Answers(notified[k], now[k]) {
      if k < |handled| { assert now[k] == handled[k]; }
    }
  }

  lemma {:induction false} FinishKeepsQueue(notified: seq<Job>, handled: seq<Handled>, reading: Option<Notice>,
                                            queue: seq<Job>, result: ReadResult)
    requires QueueMatches(notified, handled, reading, queue) && reading.Some?
    ensures reading.value.RowNotice? && reading.value.owner.Some?
    ensures QueueMatches(notified, handled + [AfterRead(reading.value.row, reading.value.owner.value, result)], None, queue)
  {
    var h := AfterRead(reading.value.row, reading.value.owner.value, result);
    var now := handled + [h];
    assert h == AfterRead(reading.value.row, OwnerOf(reading.value).value, result);
    assert Answers(notified[|handled|], h);
    forall k | 0 <= k < |now| ensures Answers(notified[k], now[k]) {
      if k < |handled| { assert now[k] == handled[k]; }
    }
  }

  lemma {:induction false} AppendKeepsOrder(handled: seq<Handled>, from: nat, h: Handled, upTo: nat)
    requires InOrder(handled, from) && from <= upTo
    requires IsUpdate(h) ==> from <= h.message.version <= upTo
    ensures InOrder(handled + [h], upTo)
  {
  }

  class StreamHub {
    const maxStreams: nat
    /** The route's: messages waiting for one client before they become a `resync`. */
    const maxBacklog: nat
    var byOwner: map<string, set<nat>>
    var count: nat
    var nextId: nat
    var queue: seq<Job>
    var reading: Option<Notice>

    /** The open streams with their outboxes. */
    ghost var streams: map<nat, Stream>
    /** Every job ever queued, and what became of those done. */
    ghost var notified: seq<Job>
    ghost var handled: seq<Handled>
    /** The database's commits so far, and as of the start of the read under way. */
    ghost var stored: nat
    ghost var readFrom: nat

    ghost predicate Valid()
      reads this
    {
      && count == |Owners(streams)| && count <= maxStreams
      && (forall id :: id in streams ==> id < nextId)
      && AllTold(handled, streams, maxBacklog)
      && SetsMatch(byOwner, Owners(streams))
      && QueueMatches(notified, handled, reading, queue)
      && readFrom <= stored && InOrder(handled, if reading.Some? then readFrom else stored)
    }

    constructor (maxStreams: nat, maxBacklog: nat)
      ensures Valid() && streams == map[] && notified == []
    {
      this.maxStreams, this.maxBacklog := maxStreams, maxBacklog;
      byOwner, count, nextId, queue, reading := map[], 0, 0, [], None;
      streams, notified, handled, stored, readFrom := map[], [], [], 0, 0;
    }

    /** Refused exactly when the process already holds `maxStreams` streams. */
    method Subscribe(owner: string) returns (id: Option<nat>)
      requires Valid()
      modifies this
      ensures Valid() && handled == old(handled) && notified == old(notified)
      ensures id.None? <==> old(|Owners(streams)|) == maxStreams
      ensures id.Some? ==> id.value !in old(streams)
      ensures streams == if id.Some? then old(streams)[id.value := Opened(owner, |handled|)] else old(streams)
    {
      hide SetsMatch, QueueMatches, InOrder, Told;
      if count >= maxStreams { return None; }
      id := Some(nextId);
      OpenKeepsSets(byOwner, Owners(streams), nextId, owner);
      byOwner := byOwner[owner := StreamsOf(byOwner, owner) + {nextId}];
      count := count + 1;
      OpensTold(handled, owner, maxBacklog);
      ghost var joined := streams[nextId := Opened(owner, |handled|)];
      assert Owners(joined) == Owners(streams)[nextId := owner];
      streams := joined;
      nextId := nextId + 1;
    }

    /** Ends one subscription; ending it again changes nothing. */
    method Unsubscribe(id: nat, owner: string)
      requires Valid() && (id in streams ==> streams[id].owner == owner)
      modifies this
      ensures Valid() && handled == old(handled) && notified == old(notified)
      ensures streams == old(streams) - {id}
    {
      hide QueueMatches, InOrder, Told;
      if owner !in byOwner || id !in byOwner[owner] {
        assert Belongs(byOwner, Owners(streams), owner, id);
        return;
      }
      hide SetsMatch;
      CloseKeepsSets(byOwner, Owners(streams), id, owner);
      count := count - 1;
      var rest := byOwner[owner] - {id};
      byOwner := if rest == {} then byOwner - {owner} else byOwner[owner := rest];
      assert Owners(streams - {id}) == Owners(streams) - {id};
      streams := streams - {id};
    }

    /**
     * A writer's step: a wake-up, a write done or thrown, its heartbeat, its client gone.
     * Leaving its loop it ends its subscription, whatever was still in hand or waiting.
     */
    method RunWriter(id: nat, owner: string, ghost e: StreamOutbox.Event, ended: bool)
      requires Valid() && id in streams && streams[id].owner == owner && !e.Send?
      requires ended <==> AfterEvent(streams[id], e, maxBacklog).outbox.phase.Ended?
      modifies this
      ensures Valid() && handled == old(handled) && notified == old(notified)
      ensures streams == if ended then old(streams) - {id}
                         else old(streams)[id := AfterEvent(old(streams)[id], e, maxBacklog)]
      ensures !ended ==> Grew(old(streams), streams, None, [])
    {
      hide QueueMatches, InOrder, Told, SetsMatch;
      if ended {
        Unsubscribe(id, owner);
      } else {
        WriterKeepsTold(handled, streams[id], e, maxBacklog);
        WriterSendsNothing(streams[id], e, maxBacklog);
        hide AfterEvent;
        ghost var now := streams[id := AfterEvent(streams[id], e, maxBacklog)];
        assert Owners(now) == Owners(streams);
        streams := now;
      }
    }

    method Enqueue(job: Job)
      requires Valid()
      modifies this
      ensures Valid() && handled == old(handled) && streams == old(streams)
      ensures notified == old(notified) + [job]
    {
      hide SetsMatch, InOrder, AllTold, Owners, Answers;
      queue := queue + [job];
      notified := notified + [job];
    }

    /** A row was committed to the database. */
    ghost method Commit()
      requires Valid()
      modifies this`stored
      ensures Valid() && stored == old(stored) + 1
    {
      hide SetsMatch, QueueMatches, AllTold, Owners;
      stored := stored + 1;
    }

    /** To every stream it reaches, the message. */
    ghost method Record(h: Handled)
      requires AllTold(handled, streams, maxBacklog)
      modifies this`streams, this`handled
      ensures handled == old(handled) + [h] && AllTold(handled, streams, maxBacklog)
      ensures streams == map id | id in old(streams) :: SendTo(old(streams)[id], h, maxBacklog)
      ensures Owners(streams) == Owners(old(streams))
      ensures Heard(old(streams), streams, h)
    {
      hide *;
      SendsAreHeard(handled, streams, h, maxBacklog);
      RecordKeepsTold(handled, streams, h, maxBacklog);
      streams := map id | id in streams :: SendTo(streams[id], h, maxBacklog);
      handled := handled + [h];
    }

    ghost predicate HasStream(owner: string)
      reads this
    {
      exists id :: id in Owners(streams) && Owners(streams)[id] == owner
    }

    /**
     * Takes the next job. A row is read only when its owner has a stream open; everything
     * else is settled at once.
     */
    method BeginNext()
      requires Valid() && reading.None? && queue != []
      modifies this
      ensures Valid() && notified == old(notified) && queue == old(queue)[1..]
      ensures var job := old(queue)[0];
              match job
              case ResyncAll => handled == old(handled) + [ToAll(StreamOutbox.Resync)] && reading.None?
              case Notify(None) => handled == old(handled) + [Nothing] && reading.None?
              case Notify(Some(notice)) =>
                if OwnerOf(notice).None? || !old(HasStream(OwnerOf(notice).value))
                then handled == old(handled) + [Nothing] && reading.None?
                else if notice.WalletNotice? then handled == old(handled) + [To(notice.wallet, StreamOutbox.Resync)] && reading.None?
                else handled == old(handled) && streams == old(streams) && reading == Some(notice)
      ensures reading.None? ==>
                streams == map id | id in old(streams) :: SendTo(old(streams)[id], handled[|handled| - 1], maxBacklog)
      // a read is begun exactly for a row whose owner has a stream open
      ensures reading.Some? <==>
                var job := old(queue)[0];
                && job.Notify? && job.notice.Some? && job.notice.value.RowNotice? && job.notice.value.owner.Some?
                && exists id :: id in old(streams) && old(streams)[id].owner == job.notice.value.owner.value
      ensures reading.Some? ==> old(queue)[0] == Notify(reading)
      // a general resync reaches every stream, a wallet's its own; nothing else is sent anything yet
      ensures var job := old(queue)[0];
              match job
              case ResyncAll => Grew(old(streams), streams, None, [StreamOutbox.Resync])
              case Notify(Some(WalletNotice(wallet))) => Grew(old(streams), streams, Some(wallet), [StreamOutbox.Resync])
              case _ => Grew(old(streams), streams, None, [])
    {
      hide SetsMatch, AllTold, InOrder, Owners, SendTo, Grew;
      var job := queue[0];
      ghost var h, before := Nothing, streams;
      SameStreams(before);
      if job.ResyncAll? {
        h := ToAll(StreamOutbox.Resync);
      } else if job.notice.Some? && OwnerOf(job.notice.value).Some? {
        var owner := OwnerOf(job.notice.value).value;
        StreamOfOwner(byOwner, Owners(streams), owner);
        OwnersAre(streams, owner);
        if owner in byOwner {
          if job.notice.value.RowNotice? {
            queue, reading, readFrom := queue[1..], job.notice, stored;
            return;
          }
          h := To(owner, StreamOutbox.Resync);
        }
      }
      SettleKeepsQueue(notified, handled, queue, h);
      AppendKeepsOrder(handled, stored, h, stored);
      hide QueueMatches;
      queue := queue[1..];
      Record(h);
      if h.Nothing? && job.Notify? && job.notice.Some? && job.notice.value.WalletNotice? {
        NobodyHears(before, streams, job.notice.value.wallet, [StreamOutbox.Resync]);
      }
    }

    /**
     * The read of the row answers, with a state committed no earlier than the read began:
     * whoever has a stream of that owner open now is told.
     */
    method FinishRead(result: ReadResult)
      requires Valid() && reading.Some?
      requires result.Found? ==> readFrom <= result.version <= stored
      modifies this
      ensures Valid() && reading.None? && notified == old(notified)
      ensures old(reading).value.RowNotice? && old(reading).value.owner.Some?
      ensures var h := AfterRead(old(reading).value.row, old(reading).value.owner.value, result);
              && handled == old(handled) + [h]
              && streams == map id | id in old(streams) :: SendTo(old(streams)[id], h, maxBacklog)
      // the row's owner hears of it: the row as read, a resync when it could not be, nothing when it is gone
      ensures var notice := old(reading).value;
              Grew(old(streams), streams, notice.owner,
                   match result
                   case Found(version) => [StreamOutbox.Update(notice.row, version)]
                   case Failed => [StreamOutbox.Resync]
                   case Missing => [])
    {
      hide SetsMatch, AllTold, InOrder, Owners, QueueMatches, SendTo, Grew;
      FinishKeepsQueue(notified, handled, reading, queue, result);
      ghost var h := AfterRead(reading.value.row, reading.value.owner.value, result);
      AppendKeepsOrder(handled, readFrom, h, stored);
      ghost var before := streams;
      Record(h);
      if h.Nothing? { GoneRowsAreNotHeard(before, streams, reading.value.owner); }
      reading := None;
    }
  }

  lemma {:induction false} OpensTold(handled: seq<Handled>, owner: string, maxBacklog: nat)
    ensures Told(handled, Opened(owner, |handled|), maxBacklog)
  {
    StreamOutbox.InitialHolds(maxBacklog);
  }

  lemma {:induction false} SinceIsSuffix(handled: seq<Handled>, since: nat, k: nat)
    requires since <= k < |handled|
    ensures handled[since..][k - since] == handled[k]
  {
  }

  /**
   * End to end, in any state the hub and its writers reach: once a stream's writer sleeps,
   * everything handled for its owner since it opened has been written to the client, or a
   * `resync` has that was put in after it was handled.
   */
  lemma {:induction false} ChangesReachTheClient(hub: StreamHub, id: nat, k: nat)
    requires hub.Valid() && id in hub.streams && hub.streams[id].outbox.phase == StreamOutbox.Sleeping(None)
    requires hub.streams[id].since <= k < |hub.handled| && Reaches(hub.handled[k], hub.streams[id].owner)
    ensures ReachesTheClient(hub.handled, hub.streams[id], k)
  {
    IsWritten(hub.handled, hub.streams[id], hub.maxBacklog, k);
  }

  /**
   * The `k`-th job's message is the one sent after those of the jobs before it, and what
   * was written answers for it there.
   */
  ghost predicate ReachesTheClient(handled: seq<Handled>, s: Stream, k: nat)
    requires s.since <= k < |handled| && Reaches(handled[k], s.owner)
  {
    var t, i := s.outbox, |MessagesFor(handled[s.since..k], s.owner)|;
    && i < |t.sent| && t.sent[i] == handled[k].message && |t.outMarks| == |t.written|
    && exists j :: 0 <= j < |t.written| && StreamOutbox.AnsweredAt(t.written, t.outMarks, t.sent, i, j)
  }

  lemma {:induction false} IsWritten(handled: seq<Handled>, s: Stream, maxBacklog: nat, k: nat)
    requires Told(handled, s, maxBacklog) && s.outbox.phase == StreamOutbox.Sleeping(None)
    requires s.since <= k < |handled| && Reaches(handled[k], s.owner)
    ensures ReachesTheClient(handled, s, k)
  {
    hide StreamOutbox.Accounts, StreamOutbox.AnsweredAt;
    var t := s.outbox;
    SinceIsSuffix(handled, s.since, k);
    HandledIsSent(handled[s.since..], s.owner, k - s.since);
    assert handled[s.since..][..k - s.since] == handled[s.since..k];
    StreamOutbox.AsleepAllIsWritten(t, maxBacklog);
    StreamOutbox.NothingIsLostSilently(t.written, t.outMarks, t.sent, |MessagesFor(handled[s.since..k], s.owner)|);
  }

  /** What befalls a stream: a job done, or a step of its writer. */
  datatype Moment = Done(h: Handled) | Wrote(e: StreamOutbox.Event)

  function Live(s: Stream, later: seq<Moment>, maxBacklog: nat): Stream
    decreases |later|
  {
    if later == [] then s
    else
      Live(match later[0]
           case Done(h) => SendTo(s, h, maxBacklog)
           case Wrote(e) => AfterEvent(s, e, maxBacklog), later[1..], maxBacklog)
  }

  /** The steps of its outbox among them. */
  function StepsOf(owner: string, later: seq<Moment>): seq<StreamOutbox.Event> {
    if later == [] then []
    else
      (match later[0]
       case Done(h) => if Reaches(h, owner) then [StreamOutbox.Send(h.message)] else []
       case Wrote(e) => [e])
      + StepsOf(owner, later[1..])
  }

  lemma {:induction false} LivesAsItsOutbox(s: Stream, later: seq<Moment>, maxBacklog: nat)
    ensures Live(s, later, maxBacklog) == s.(outbox := StreamOutbox.Run(s.outbox, maxBacklog, StepsOf(s.owner, later)))
    decreases |later|
  {
    hide StreamOutbox.Step;
    if later != [] {
      var steps, rest := StepsOf(s.owner, later), StepsOf(s.owner, later[1..]);
      if later[0].Wrote? {
        assert steps[0] == later[0].e && steps[1..] == rest;
        LivesAsItsOutbox(AfterEvent(s, later[0].e, maxBacklog), later[1..], maxBacklog);
      } else {
        if Reaches(later[0].h, s.owner) { assert steps[0] == StreamOutbox.Send(later[0].h.message) && steps[1..] == rest; }
        else { assert steps == rest; }
        LivesAsItsOutbox(SendTo(s, later[0].h, maxBacklog), later[1..], maxBacklog);
      }
    }
  }

  /**
   * The same without marks: from the moment a change is handled, whatever follows, it or a
   * `resync` stands behind everything its stream had taken for the client by then, and has
   * been written once the writer sleeps.
   */
  lemma {:induction false} ChangeIsWrittenAfter(handled: seq<Handled>, s: Stream, h: Handled, later: seq<Moment>, maxBacklog: nat)
    requires Told(handled, s, maxBacklog) && Reaches(h, s.owner)
    ensures var u, t := s.outbox, Live(SendTo(s, h, maxBacklog), later, maxBacklog).outbox;
            var out := StreamOutbox.Out(t);
            && u.written + u.hand <= out
            && (exists j :: |u.written| + |u.hand| <= j < |out| && (out[j] == h.message || out[j].Resync?))
            && (t.phase == StreamOutbox.Sleeping(None) ==> out == t.written)
  {
    hide StreamOutbox.Step, StreamOutbox.Inv, StreamOutbox.Out, StreamOutbox.Run;
    LivesAsItsOutbox(SendTo(s, h, maxBacklog), later, maxBacklog);
    StreamOutbox.SentIsWrittenAfter(s.outbox, maxBacklog, h.message, StepsOf(s.owner, later));
  }
}
