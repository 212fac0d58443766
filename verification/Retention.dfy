/**
 * The feed's retention pass: old events leave in batches, old claims after them, and the
 * cut is written down.
 */
module Retention {
  import opened Shared
  import PushNotifier

  /** `days: None` - retention is off; `keptSince` is the cut that was enforced. */
  datatype Outcome = Outcome(keptSince: Option<int>, deletedEvents: nat, deletedClaims: nat)

  datatype Record = Record(days: Option<int>, keptSince: Option<int>, ranAt: int)

  datatype Error = ShorterThanPromised

  function Since<K>(rows: map<K, int>, cut: int): map<K, int> {
    map k | k in rows && rows[k] >= cut :: rows[k]
  }

  /** Two workers during a rolling deploy: the later pass stays on record. */
  function Recorded(before: Option<Record>, row: Record): Option<Record> {
    if before.Some? && before.value.ranAt > row.ranAt then before else Some(row)
  }

  class Store {
    /** Events by id with their block time, and claims with the moment they were sent. */
    var events: map<nat, int>
    var claims: map<PushNotifier.Key, int>
    var record: Option<Record>

    constructor (events: map<nat, int>, claims: map<PushNotifier.Key, int>)
      ensures this.events == events && this.claims == claims && record == None
    {
      this.events, this.claims, record := events, claims, None;
    }

    /** One statement of the database: some rows older than the cut, all of them if they fit the batch. */
    method DeleteBatch(cut: int, batch: nat) returns (deleted: nat)
      modifies this`events
      ensures events.Keys <= old(events).Keys && deleted == |old(events)| - |events| <= batch
      ensures Since(events, cut) == Since(old(events), cut)
      ensures deleted < batch ==> events == Since(old(events), cut)
    {
      var left := set id | id in events && events[id] < cut;
      deleted := 0;
      while left != {} && deleted < batch
        invariant left == set id | id in events && events[id] < cut
        invariant events.Keys <= old(events).Keys && deleted == |old(events)| - |events| <= batch
        invariant forall id :: id in events ==> events[id] == old(events)[id]
        invariant forall id :: id in old(events) && old(events)[id] >= cut ==> id in events
        decreases |left|
      {
        var id :| id in left;
        left := left - {id};
        assert |(events - {id}).Keys| == |events.Keys - {id}|;
        events := events - {id};
        deleted := deleted + 1;
      }
    }

    /**
     * The pass: everything older than the cut goes and nothing younger, however many
     * batches it takes; retention shorter than promised deletes nothing.
     */
    method RunRetention(now: int, days: Option<int>, batch: nat) returns (r: Result<Outcome, Error>)
      requires 1 <= batch
      modifies this
      ensures r.Err? <==> days.Some? && days.value < 90
      ensures r.Err? || days.None? ==> events == old(events) && claims == old(claims)
      ensures r.Err? ==> record == old(record)
      ensures days.None? ==> r == Ok(Outcome(None, 0, 0)) && record == Recorded(old(record), Record(None, None, now))
      ensures r.Ok? && days.Some? ==>
                var cut := now - days.value * PushNotifier.DAY_MS;
                && events == Since(old(events), cut) && claims == Since(old(claims), cut)
                && r.value.keptSince == Some(cut)
                && |events| + r.value.deletedEvents == |old(events)|
                && |claims| + r.value.deletedClaims == |old(claims)|
                && record == Recorded(old(record), Record(days, Some(cut), now))
      // a row goes exactly when it is older than the cut, and a later pass of another worker stays on record
      ensures r.Ok? && days.Some? ==>
                var cut := now - days.value * 86_400_000;
                && (forall id :: id in events <==> id in old(events) && cut <= old(events)[id])
                && (forall id :: id in events ==> events[id] == old(events)[id])
                && (forall k :: k in claims <==> k in old(claims) && cut <= old(claims)[k])
                && (forall k :: k in claims ==> claims[k] == old(claims)[k])
      ensures r.Ok? ==>
                if old(record).Some? && now < old(record).value.ranAt then record == old(record)
                else record == Some(Record(days, if days.Some? then Some(now - days.value * 86_400_000) else None, now))
    {
      if days.None? {
        record := Recorded(record, Record(None, None, now));
        return Ok(Outcome(None, 0, 0));
      }
      if days.value < PushNotifier.MIN_RETENTION_DAYS { return Err(ShorterThanPromised); }
      var cut := now - days.value * PushNotifier.DAY_MS;
      var total := 0;
      while true
        invariant Since(events, cut) == Since(old(events), cut)
        invariant claims == old(claims) && record == old(record)
        invariant total == |old(events)| - |events|
        decreases |events|
      {
        var deleted := DeleteBatch(cut, batch);
        total := total + deleted;
        if deleted < batch { break; }
      }
      var kept := Since(claims, cut);
      assert kept.Keys <= claims.Keys;
      FewerRows(kept.Keys, claims.Keys);
      var deletedClaims := |claims| - |kept|;
      claims := kept;
      record := Recorded(record, Record(days, Some(cut), now));
      r := Ok(Outcome(Some(cut), total, deletedClaims));
    }
  }

  lemma {:induction false} FewerRows<T>(a: set<T>, b: set<T>)
    requires a <= b
    ensures |a| <= |b|
  {
    assert b == a + (b - a);
  }

  /** What a pass deletes of the claims is what the push protocol allows it to. */
  lemma {:induction false} PassIsTheProtocolsStep(world: PushNotifier.World, s: PushNotifier.State, days: int)
    requires PushNotifier.Configured(world) && PushNotifier.Inv(world, s) && days >= PushNotifier.MIN_RETENTION_DAYS
    ensures var after := s.(claims := Since(s.claims, s.clock - days * PushNotifier.DAY_MS));
            after == PushNotifier.Step(world, s, PushNotifier.Retain(days)) && PushNotifier.Inv(world, after)
  {
    hide PushNotifier.Inv;
    PushNotifier.StepKeepsInv(world, s, PushNotifier.Retain(days));
    assert PushNotifier.Step(world, s, PushNotifier.Retain(days)).claims == Since(s.claims, s.clock - days * PushNotifier.DAY_MS);
  }
}
