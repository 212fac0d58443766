/**
 * Feed rows: one transaction's events onto the permissions we hold, whatever the order
 * and number of replays, with the permissions a closed authority took down looked up first.
 */
module FeedStore {
  import opened Shared
  import PermissionStore
  import TransactionDecoder

  type Row = PermissionStore.Row
  type Read = PermissionStore.Read
  type Body = TransactionDecoder.Body

  /** The unique index of a feed row. */
  datatype Key = Key(signature: string, position: nat, pda: string)

  datatype Entry = Direct(body: Body) | TakenDown(authority: string)

  datatype Pending = Pending(key: Key, entry: Entry)

  datatype Decoded = Decoded(signature: string, events: seq<TransactionDecoder.Event>)

  function AllowanceOf(body: Body): Option<string> {
    match body
    case PlanUpdate(_) => None
    case Closure(_, _) => None
    case _ => Some(body.allowance)
  }

  /** Which events name a permission: all but an update of a plan and the closing of an authority. */
  lemma {:induction false} NamesItsPermission(body: Body)
    ensures body.PlanUpdate? || body.Closure? ==> AllowanceOf(body) == None
    ensures body.Created? || body.Charged? || body.Rejected? || body.Cancelled? || body.Resumed? || body.Revoked?
            ==> AllowanceOf(body) == Some(body.allowance)
  {
  }

  // ---------------------------------------------------------------- permissions under an authority

  /** The live rows of `owner` whose mint derives to `authority`. */
  ghost predicate IsUnder(rows: map<string, Row>, derive: (string, string) -> string, owner: string, authority: string,
                          pda: string) {
    && pda in rows && rows[pda].network.owner == owner && rows[pda].status != PermissionStore.Revoked
    && derive(owner, rows[pda].network.mint) == authority
  }

  ghost predicate Distinct<T>(s: seq<T>) {
    forall i, j :: 0 <= i < j < |s| ==> s[i] != s[j]
  }

  /** The rows a query over `owner`'s live permissions lists, in whatever order. */
  method LiveRowsOf(rows: map<string, Row>, owner: string) returns (listed: seq<string>)
    ensures Distinct(listed)
    ensures forall pda :: pda in listed <==>
              pda in rows && rows[pda].network.owner == owner && rows[pda].status != PermissionStore.Revoked
  {
    listed := [];
    var left := rows.Keys;
    while left != {}
      invariant left <= rows.Keys && Distinct(listed) && (forall pda :: pda in listed ==> pda !in left)
      invariant forall pda :: pda in listed <==>
                  (pda in rows && pda !in left
                   && rows[pda].network.owner == owner && rows[pda].status != PermissionStore.Revoked)
      decreases |left|
    {
      var pda :| pda in left;
      left := left - {pda};
      if rows[pda].network.owner == owner && rows[pda].status != PermissionStore.Revoked {
        listed := listed + [pda];
      }
    }
  }

  /** One derivation per mint, remembered: exactly the permissions under the authority, none twice. */
  method PermissionsUnder(rows: map<string, Row>, derive: (string, string) -> string, owner: string, authority: string)
    returns (matching: seq<string>)
    ensures Distinct(matching)
    ensures forall pda :: pda in matching <==> IsUnder(rows, derive, owner, authority, pda)
  {
    var listed := LiveRowsOf(rows, owner);
    matching := [];
    var byMint: map<string, bool> := map[];
    for i := 0 to |listed|
      invariant forall mint :: mint in byMint ==> byMint[mint] == (derive(owner, mint) == authority)
      invariant Distinct(matching)
      invariant forall pda :: pda in matching <==> pda in listed[..i] && IsUnder(rows, derive, owner, authority, pda)
    {
      var pda := listed[i];
      assert pda in listed && pda !in listed[..i];
      var mint := rows[pda].network.mint;
      if mint !in byMint {
        byMint := byMint[mint := derive(owner, mint) == authority];
      }
      if byMint[mint] {
        matching := matching + [pda];
      }
      assert listed[..i + 1] == listed[..i] + [pda];
    }
    assert listed[..|listed|] == listed;
  }

  // ---------------------------------------------------------------- the rows of one transaction

  /** Rows of the first `n` events that name a permission themselves. */
  function DirectRows(d: Decoded, n: nat): seq<Pending>
    requires n <= |d.events|
  {
    if n == 0 then []
    else
      var e := d.events[n - 1];
      DirectRows(d, n - 1)
      + (match AllowanceOf(e.body)
         case Some(pda) => [Pending(Key(d.signature, e.position, pda), Direct(e.body))]
         case None => [])
  }

  function Expanded(d: Decoded, e: TransactionDecoder.Event, pdas: seq<string>): seq<Pending>
    requires e.body.Closure?
  {
    seq(|pdas|, i requires 0 <= i < |pdas| => Pending(Key(d.signature, e.position, pdas[i]), TakenDown(e.body.authority)))
  }

  /** Rows of the closures among the first `n` events; `under` holds each closure's permissions by position. */
  function ClosureRows(d: Decoded, under: map<nat, seq<string>>, n: nat): seq<Pending>
    requires n <= |d.events|
  {
    if n == 0 then []
    else
      var e := d.events[n - 1];
      ClosureRows(d, under, n - 1)
      + if e.body.Closure? && e.position in under then Expanded(d, e, under[e.position]) else []
  }

  function AllRows(d: Decoded, under: map<nat, seq<string>>): seq<Pending> {
    DirectRows(d, |d.events|) + ClosureRows(d, under, |d.events|)
  }

  /** Event `i` of the transaction asks for the row `key`. */
  ghost predicate Asks(d: Decoded, under: map<nat, seq<string>>, i: nat, key: Key)
    requires i < |d.events|
  {
    var e := d.events[i];
    && key.signature == d.signature && key.position == e.position
    && (AllowanceOf(e.body) == Some(key.pda)
        || (e.body.Closure? && e.position in under && key.pda in under[e.position]))
  }

  function EntryOf(body: Body): Entry {
    if body.Closure? then TakenDown(body.authority) else Direct(body)
  }

  /** `row` is what event `i` asks for, with that event's content. */
  ghost predicate RowOf(d: Decoded, under: map<nat, seq<string>>, closures: bool, i: nat, row: Pending)
    requires i < |d.events|
  {
    && d.events[i].body.Closure? == closures
    && Asks(d, under, i, row.key)
    && row.entry == EntryOf(d.events[i].body)
  }

  ghost predicate Asked(d: Decoded, under: map<nat, seq<string>>, n: nat, closures: bool, row: Pending)
    requires n <= |d.events|
  {
    exists i :: 0 <= i < n && RowOf(d, under, closures, i, row)
  }

  /** `rows` are those of the first `n` events of one kind, none missing and no two on one key. */
  ghost predicate AreRowsOf(d: Decoded, under: map<nat, seq<string>>, n: nat, closures: bool, rows: seq<Pending>)
    requires n <= |d.events|
  {
    && (forall row :: row in rows <==> Asked(d, under, n, closures, row))
    && DistinctKeys(rows)
  }

  ghost predicate DistinctKeys(rows: seq<Pending>) {
    forall k, m :: 0 <= k < m < |rows| ==> rows[k].key != rows[m].key
  }

  lemma {:induction false} EarlierKeysDiffer(d: Decoded, under: map<nat, seq<string>>, n: nat, closures: bool,
                                             earlier: Pending, later: Pending)
    requires n < |d.events| && TransactionDecoder.Increasing(d.events)
    requires Asked(d, under, n, closures, earlier) && RowOf(d, under, closures, n, later)
    ensures earlier.key != later.key
  {
    var i :| 0 <= i < n && RowOf(d, under, closures, i, earlier);
    assert d.events[i].position < d.events[n].position;
  }

  lemma {:induction false} AppendRows(d: Decoded, under: map<nat, seq<string>>, n: nat, closures: bool,
                                      rows: seq<Pending>, more: seq<Pending>)
    requires n < |d.events| && TransactionDecoder.Increasing(d.events)
    requires AreRowsOf(d, under, n, closures, rows) && DistinctKeys(more)
    requires forall row :: row in more <==> RowOf(d, under, closures, n, row)
    ensures AreRowsOf(d, under, n + 1, closures, rows + more)
  {
    hide RowOf;
    var all := rows + more;
    forall row ensures Asked(d, under, n + 1, closures, row) <==> Asked(d, under, n, closures, row) || row in more {
    }
    assert DistinctKeys(rows);
    hide Asked;
    forall k, m | 0 <= k < m < |all| ensures all[k].key != all[m].key {
      if k < |rows| <= m {
        assert rows[k] in rows && more[m - |rows|] in more;
        EarlierKeysDiffer(d, under, n, closures, rows[k], more[m - |rows|]);
      }
    }
    assert DistinctKeys(all);
  }

  lemma {:induction false} DirectRowsAreTheirs(d: Decoded, under: map<nat, seq<string>>, n: nat)
    requires n <= |d.events| && TransactionDecoder.Increasing(d.events)
    ensures AreRowsOf(d, under, n, false, DirectRows(d, n))
  {
    if n > 0 {
      hide AreRowsOf;
      DirectRowsAreTheirs(d, under, n - 1);
      var e := d.events[n - 1];
      var more := match AllowanceOf(e.body)
        case Some(pda) => [Pending(Key(d.signature, e.position, pda), Direct(e.body))]
        case None => [];
      forall row ensures row in more <==> RowOf(d, under, false, n - 1, row) {
        if RowOf(d, under, false, n - 1, row) { assert row == more[0]; }
      }
      AppendRows(d, under, n - 1, false, DirectRows(d, n - 1), more);
    } else {
      assert DirectRows(d, 0) == [];
    }
  }

  lemma {:induction false} ClosureRowsAreTheirs(d: Decoded, under: map<nat, seq<string>>, n: nat)
    requires n <= |d.events| && TransactionDecoder.Increasing(d.events)
    requires forall p :: p in under ==> Distinct(under[p])
    ensures AreRowsOf(d, under, n, true, ClosureRows(d, under, n))
  {
    if n > 0 {
      hide AreRowsOf;
      ClosureRowsAreTheirs(d, under, n - 1);
      var e := d.events[n - 1];
      var more := if e.body.Closure? && e.position in under then Expanded(d, e, under[e.position]) else [];
      forall row ensures row in more <==> RowOf(d, under, true, n - 1, row) {
        if RowOf(d, under, true, n - 1, row) {
          var k :| 0 <= k < |under[e.position]| && under[e.position][k] == row.key.pda;
          assert more[k] == row;
        }
      }
      AppendRows(d, under, n - 1, true, ClosureRows(d, under, n - 1), more);
    } else {
      assert ClosureRows(d, under, 0) == [];
    }
  }

  lemma {:induction false} KindsNeverMeet(d: Decoded, under: map<nat, seq<string>>, direct: Pending, closed: Pending)
    requires TransactionDecoder.Increasing(d.events)
    requires Asked(d, under, |d.events|, false, direct) && Asked(d, under, |d.events|, true, closed)
    ensures direct.key != closed.key
  {
    var i :| 0 <= i < |d.events| && RowOf(d, under, false, i, direct);
    var j :| 0 <= j < |d.events| && RowOf(d, under, true, j, closed);
    assert d.events[i].position != d.events[j].position by { if i < j {} else { assert j < i; } }
  }

  /**
   * However many permissions a closure expands to, no two rows of one transaction meet
   * on the unique index, every event asks for its rows, and nothing else is asked for.
   */
  lemma {:induction false} RowsNeverCollide(d: Decoded, under: map<nat, seq<string>>)
    requires TransactionDecoder.Increasing(d.events)
    requires forall p :: p in under ==> Distinct(under[p])
    ensures DistinctKeys(AllRows(d, under))
    ensures forall row :: row in AllRows(d, under) <==>
              Asked(d, under, |d.events|, false, row) || Asked(d, under, |d.events|, true, row)
  {
    hide DirectRows, ClosureRows, Asked;
    var n := |d.events|;
    DirectRowsAreTheirs(d, under, n);
    ClosureRowsAreTheirs(d, under, n);
    var direct, closed := DirectRows(d, n), ClosureRows(d, under, n);
    assert DistinctKeys(direct) && DistinctKeys(closed);
    var all := direct + closed;
    forall k, m | 0 <= k < m < |all| ensures all[k].key != all[m].key {
      if k < |direct| <= m {
        assert direct[k] in direct && closed[m - |direct|] in closed;
        KindsNeverMeet(d, under, direct[k], closed[m - |direct|]);
      }
    }
    assert DistinctKeys(all);
  }

  lemma {:induction false} AskedIff(d: Decoded, under: map<nat, seq<string>>, row: Pending)
    ensures Asked(d, under, |d.events|, false, row) || Asked(d, under, |d.events|, true, row) <==>
            exists i :: 0 <= i < |d.events| && Asks(d, under, i, row.key) && row.entry == EntryOf(d.events[i].body)
  {
    if i :| 0 <= i < |d.events| && Asks(d, under, i, row.key) && row.entry == EntryOf(d.events[i].body) {
      assert RowOf(d, under, d.events[i].body.Closure?, i, row);
    }
  }

  // ---------------------------------------------------------------- state of the two tables

  function Lookup(rows: map<string, Row>, pda: string): Option<Row> {
    if pda in rows then Some(rows[pda]) else None
  }

  ghost function RowsAfter(rows: map<string, Row>, seen: seq<(string, Read)>): (after: map<string, Row>)
    ensures rows.Keys <= after.Keys
  {
    forall pda | pda in rows ensures PermissionStore.ApplyAll(Some(rows[pda]), PermissionStore.ReadsOf(seen, pda)).Some? {
      RowStays(rows[pda], PermissionStore.ReadsOf(seen, pda));
    }
    map pda | pda in rows.Keys + (set i | 0 <= i < |seen| :: seen[i].0)
              && PermissionStore.ApplyAll(Lookup(rows, pda), PermissionStore.ReadsOf(seen, pda)).Some?
      :: PermissionStore.ApplyAll(Lookup(rows, pda), PermissionStore.ReadsOf(seen, pda)).value
  }

  lemma {:induction false} RowStays(row: Row, seen: seq<Read>)
    ensures PermissionStore.ApplyAll(Some(row), seen).Some?
    decreases |seen|
  {
    if seen != [] {
      RowStays(PermissionStore.Apply(Some(row), seen[0]).value, seen[1..]);
    }
  }

  lemma {:induction false} UnseenHasNoReads(seen: seq<(string, Read)>, pda: string)
    requires forall i :: 0 <= i < |seen| ==> seen[i].0 != pda
    ensures PermissionStore.ReadsOf(seen, pda) == []
    decreases |seen|
  {
    if seen != [] { UnseenHasNoReads(seen[1..], pda); }
  }

  /** A write that has looked up what its closures took down, and not yet committed. */
  datatype Ticket = Ticket(d: Decoded, under: map<nat, seq<string>>)

  datatype State = State(rows: map<string, Row>, feed: map<Key, Entry>, open: map<nat, Ticket>)

  datatype Op =
    | Look(id: nat, d: Decoded, under: map<nat, seq<string>>)
    | Commit(id: nat, seen: seq<(string, Read)>)
    | Refresh(seen: seq<(string, Read)>)

  /** `under` is what the rows show for each closure of the transaction. */
  ghost predicate LookedUp(rows: map<string, Row>, derive: (string, string) -> string, d: Decoded,
                           under: map<nat, seq<string>>) {
    && (forall p :: p in under ==> Distinct(under[p]))
    && forall i :: 0 <= i < |d.events| && d.events[i].body.Closure? ==>
         && d.events[i].position in under
         && forall pda :: pda in under[d.events[i].position] <==>
              IsUnder(rows, derive, d.events[i].body.owner, d.events[i].body.authority, pda)
  }

  /** Insert, on conflict do nothing, every row whose permission is tracked. */
  ghost function Inserted(feed: map<Key, Entry>, tracked: set<string>, rows: seq<Pending>): map<Key, Entry>
    decreases |rows|
  {
    if rows == [] then feed
    else Inserted(if rows[0].key.pda in tracked && rows[0].key !in feed then feed[rows[0].key := rows[0].entry] else feed,
                  tracked, rows[1..])
  }

  ghost function Step(s: State, derive: (string, string) -> string, op: Op): State {
    match op
    case Look(id, d, under) =>
      if id !in s.open && LookedUp(s.rows, derive, d, under) then s.(open := s.open[id := Ticket(d, under)]) else s
    case Commit(id, seen) =>
      if id !in s.open then s
      else
        var t := s.open[id];
        var rows := RowsAfter(s.rows, seen);
        State(rows, Inserted(s.feed, rows.Keys, AllRows(t.d, t.under)), s.open - {id})
    case Refresh(seen) => s.(rows := RowsAfter(s.rows, seen))
  }

  ghost function Run(s: State, derive: (string, string) -> string, ops: seq<Op>): State
    decreases |ops|
  {
    if ops == [] then s else Run(Step(s, derive, ops[0]), derive, ops[1..])
  }

  lemma {:induction false} InsertedIs(feed: map<Key, Entry>, tracked: set<string>, rows: seq<Pending>, key: Key)
    ensures var after := Inserted(feed, tracked, rows);
            && (key in feed ==> key in after && after[key] == feed[key])
            && (key in after && key !in feed ==> key.pda in tracked && Pending(key, after[key]) in rows)
    ensures forall row :: row in rows && row.key.pda in tracked ==> row.key in Inserted(feed, tracked, rows)
    decreases |rows|
  {
    if rows != [] {
      var first, rest := rows[0], rows[1..];
      var next := if first.key.pda in tracked && first.key !in feed then feed[first.key := first.entry] else feed;
      InsertedIs(next, tracked, rest, key);
      InsertedIs(next, tracked, rest, first.key);
      assert rows == [first] + rest;
    }
  }

  // ---------------------------------------------------------------- what every run keeps

  /** What the chain holds under each signature: replays decode to the same events. */
  type Chain = string -> seq<TransactionDecoder.Event>

  ghost predicate EntryStands(chain: Chain, key: Key, entry: Entry) {
    exists i :: 0 <= i < |chain(key.signature)| && chain(key.signature)[i].position == key.position
                && entry == EntryOf(chain(key.signature)[i].body)
                && (entry.Direct? ==> AllowanceOf(entry.body) == Some(key.pda))
  }

  ghost predicate TicketStands(chain: Chain, t: Ticket) {
    && t.d.events == chain(t.d.signature) && TransactionDecoder.Increasing(t.d.events)
    && forall p :: p in t.under ==> Distinct(t.under[p])
  }

  ghost predicate Inv(chain: Chain, s: State) {
    && (forall key :: key in s.feed ==> EntryStands(chain, key, s.feed[key]))
    && (forall id :: id in s.open ==> TicketStands(chain, s.open[id]))
  }

  ghost predicate OpOf(chain: Chain, op: Op) {
    op.Look? ==> op.d.events == chain(op.d.signature) && TransactionDecoder.Increasing(op.d.events)
  }

  ghost predicate OpsOf(chain: Chain, ops: seq<Op>) {
    forall i :: 0 <= i < |ops| ==> OpOf(chain, ops[i])
  }

  lemma {:induction false} StepKeepsInv(chain: Chain, derive: (string, string) -> string, s: State, op: Op)
    requires Inv(chain, s) && OpOf(chain, op)
    ensures Inv(chain, Step(s, derive, op))
    ensures forall key :: key in s.feed ==> key in Step(s, derive, op).feed && Step(s, derive, op).feed[key] == s.feed[key]
    ensures s.rows.Keys <= Step(s, derive, op).rows.Keys
  {
    hide AllRows, Inserted, RowsAfter;
    if op.Commit? && op.id in s.open {
      var t := s.open[op.id];
      var rows := RowsAfter(s.rows, op.seen);
      var after := Inserted(s.feed, rows.Keys, AllRows(t.d, t.under));
      assert TicketStands(chain, t);
      RowsNeverCollide(t.d, t.under);
      forall key | key in after ensures EntryStands(chain, key, after[key]) {
        InsertedIs(s.feed, rows.Keys, AllRows(t.d, t.under), key);
        if key !in s.feed {
          AskedIff(t.d, t.under, Pending(key, after[key]));
        }
      }
      forall key | key in s.feed ensures key in after && after[key] == s.feed[key] {
        InsertedIs(s.feed, rows.Keys, AllRows(t.d, t.under), key);
      }
    }
  }

  lemma {:induction false} RunKeepsInv(chain: Chain, derive: (string, string) -> string, s: State, ops: seq<Op>)
    requires Inv(chain, s) && OpsOf(chain, ops)
    ensures Inv(chain, Run(s, derive, ops))
    ensures forall key :: key in s.feed ==>
              key in Run(s, derive, ops).feed && Run(s, derive, ops).feed[key] == s.feed[key]
    decreases |ops|
  {
    hide Step, Inv;
    if ops != [] {
      StepKeepsInv(chain, derive, s, ops[0]);
      RunKeepsInv(chain, derive, Step(s, derive, ops[0]), ops[1..]);
    }
  }

  /** This step commits a write with an event asking for `key`, and the permission is tracked by then. */
  ghost predicate StoresNow(s: State, op: Op, key: Key) {
    && op.Commit? && op.id in s.open
    && key.pda in RowsAfter(s.rows, op.seen)
    && var t := s.open[op.id];
       exists i :: 0 <= i < |t.d.events| && Asks(t.d, t.under, i, key)
  }

  ghost predicate StoredIn(s: State, derive: (string, string) -> string, ops: seq<Op>, key: Key)
    decreases |ops|
  {
    ops != [] && (StoresNow(s, ops[0], key) || StoredIn(Step(s, derive, ops[0]), derive, ops[1..], key))
  }

  lemma {:induction false} StepStores(chain: Chain, derive: (string, string) -> string, s: State, op: Op, key: Key)
    requires Inv(chain, s)
    ensures key in Step(s, derive, op).feed <==> key in s.feed || StoresNow(s, op, key)
  {
    hide DirectRows, ClosureRows, Inserted, RowsAfter;
    if op.Commit? && op.id in s.open {
      var t := s.open[op.id];
      assert TicketStands(chain, t);
      InsertedIs(s.feed, RowsAfter(s.rows, op.seen).Keys, AllRows(t.d, t.under), key);
      RowsNeverCollide(t.d, t.under);
      var after := Step(s, derive, op).feed;
      if key in after && key !in s.feed {
        AskedIff(t.d, t.under, Pending(key, after[key]));
      }
      if StoresNow(s, op, key) {
        var i :| 0 <= i < |t.d.events| && Asks(t.d, t.under, i, key);
        AskedIff(t.d, t.under, Pending(key, EntryOf(t.d.events[i].body)));
      }
    }
  }

  /**
   * Over any interleaving of writes, replays and refreshes: a row is in the feed exactly
   * when some write of its transaction committed with the permission tracked - and, for a
   * closed authority, with the permission live under it when that write looked. A row
   * once stored never changes, and says what the chain's event at its position says.
   */
  lemma {:induction false} FeedIsExactlyWhatWasTracked(chain: Chain, derive: (string, string) -> string, s: State,
                                                       ops: seq<Op>, key: Key)
    requires Inv(chain, s) && OpsOf(chain, ops)
    ensures key in Run(s, derive, ops).feed <==> key in s.feed || StoredIn(s, derive, ops, key)
    ensures key in Run(s, derive, ops).feed ==> EntryStands(chain, key, Run(s, derive, ops).feed[key])
    ensures key in s.feed ==> Run(s, derive, ops).feed[key] == s.feed[key]
    decreases |ops|
  {
    hide Step, StoresNow;
    RunKeepsInv(chain, derive, s, ops);
    if ops != [] {
      StepKeepsInv(chain, derive, s, ops[0]);
      StepStores(chain, derive, s, ops[0], key);
      FeedIsExactlyWhatWasTracked(chain, derive, Step(s, derive, ops[0]), ops[1..], key);
    }
  }

  lemma {:induction false} TicketsAreDecoded(chain: Chain, derive: (string, string) -> string, s: State, a: seq<Op>,
                                             b: seq<Op>)
    ensures Run(s, derive, a + b) == Run(Run(s, derive, a), derive, b)
    decreases |a|
  {
    if a == [] {
      assert a + b == b;
    } else {
      assert (a + b)[1..] == a[1..] + b;
      TicketsAreDecoded(chain, derive, Step(s, derive, a[0]), a[1..], b);
    }
  }

  /**
   * Exactly one row per event: whatever came before and comes after, an event that
   * names its permission has one row - its own - once a write of it committed with that
   * permission tracked.
   */
  lemma {:induction false} TrackedEventHasItsRow(chain: Chain, derive: (string, string) -> string, s: State, before: seq<Op>,
                                                 commit: Op, after: seq<Op>, i: nat, pda: string)
    requires Inv(chain, s) && OpsOf(chain, before) && OpsOf(chain, after) && commit.Commit?
    requires var at := Run(s, derive, before);
             && commit.id in at.open && i < |at.open[commit.id].d.events|
             && (var body := at.open[commit.id].d.events[i].body; !body.PlanUpdate? && !body.Closure? && body.allowance == pda)
             && pda in RowsAfter(at.rows, commit.seen)
    ensures var d := Run(s, derive, before).open[commit.id].d;
            var key := Key(d.signature, d.events[i].position, pda);
            var feed := Run(s, derive, before + [commit] + after).feed;
            && key in feed && feed[key] == Direct(d.events[i].body)
            && forall other :: other in feed && other.signature == d.signature && other.position == d.events[i].position ==>
                 other == key
  {
    hide Step;
    var at := Run(s, derive, before);
    var t := at.open[commit.id];
    var next := Step(at, derive, commit);
    var key := Key(t.d.signature, t.d.events[i].position, pda);
    TicketsAreDecoded(chain, derive, s, before + [commit], after);
    TicketsAreDecoded(chain, derive, s, before, [commit]);
    assert Run(at, derive, [commit]) == Run(next, derive, []);
    RunKeepsInv(chain, derive, s, before);
    StepKeepsInv(chain, derive, at, commit);
    assert Asks(t.d, t.under, i, key);
    StepStores(chain, derive, at, commit, key);
    RunKeepsInv(chain, derive, next, after);
    var feed := Run(next, derive, after).feed;
    assert TicketStands(chain, t);
    assert EntryStands(chain, key, feed[key]);
    forall other | other in feed && other.signature == key.signature && other.position == key.position
      ensures other == key
    {
      assert EntryStands(chain, other, feed[other]);
    }
  }

  /**
   * And a closed authority leaves its own row on each permission it took down: one the
   * lookup of the write found, tracked when it committed.
   */
  lemma {:induction false} ClosureHasItsRows(chain: Chain, derive: (string, string) -> string, s: State, before: seq<Op>,
                                             commit: Op, after: seq<Op>, i: nat, pda: string)
    requires Inv(chain, s) && OpsOf(chain, before) && OpsOf(chain, after) && commit.Commit?
    requires var at := Run(s, derive, before);
             && commit.id in at.open && i < |at.open[commit.id].d.events|
             && (var e, under := at.open[commit.id].d.events[i], at.open[commit.id].under;
                 e.body.Closure? && e.position in under && pda in under[e.position])
             && pda in RowsAfter(at.rows, commit.seen)
    ensures var d := Run(s, derive, before).open[commit.id].d;
            var key := Key(d.signature, d.events[i].position, pda);
            var feed := Run(s, derive, before + [commit] + after).feed;
            key in feed && feed[key] == TakenDown(d.events[i].body.authority)
  {
    hide Step;
    var at := Run(s, derive, before);
    var t := at.open[commit.id];
    var next := Step(at, derive, commit);
    var key := Key(t.d.signature, t.d.events[i].position, pda);
    TicketsAreDecoded(chain, derive, s, before + [commit], after);
    TicketsAreDecoded(chain, derive, s, before, [commit]);
    assert Run(at, derive, [commit]) == Run(next, derive, []);
    RunKeepsInv(chain, derive, s, before);
    StepKeepsInv(chain, derive, at, commit);
    assert Asks(t.d, t.under, i, key);
    StepStores(chain, derive, at, commit, key);
    RunKeepsInv(chain, derive, next, after);
    var feed := Run(next, derive, after).feed;
    assert TicketStands(chain, t) && EntryStands(chain, key, feed[key]);
  }

  /**
   * A closed authority is the exception to "tracked means a row": once a refresh has
   * already read the permission as revoked, the lookup passes it over, and the closure
   * leaves no row although the permission is tracked throughout.
   */
  lemma {:induction false} ClosureAfterRefreshLeavesNoRow(derive: (string, string) -> string, network: PermissionStore.Network,
                                                          signature: string)
    ensures var authority := derive(network.owner, network.mint);
            var closure := TransactionDecoder.Event(0, 0, TransactionDecoder.Closure(network.owner, authority));
            var s := State(map["p" := PermissionStore.Row(network, PermissionStore.Active, None, 1, 0)], map[], map[]);
            var refresh := Refresh([("p", PermissionStore.Open(2, network, PermissionStore.Revoked, 0))]);
            var write := [Look(0, Decoded(signature, [closure]), map[0 := []]), Commit(0, [])];
            var late := Run(Step(s, derive, refresh), derive, write);
            && "p" in s.rows && IsUnder(s.rows, derive, network.owner, authority, "p")
            && LookedUp(Step(s, derive, refresh).rows, derive, Decoded(signature, [closure]), map[0 := []])
            && "p" in late.rows && late.feed == map[]
  {
    var authority := derive(network.owner, network.mint);
    var closure := TransactionDecoder.Event(0, 0, TransactionDecoder.Closure(network.owner, authority));
    var s := State(map["p" := PermissionStore.Row(network, PermissionStore.Active, None, 1, 0)], map[], map[]);
    var r := PermissionStore.Open(2, network, PermissionStore.Revoked, 0);
    var seen := [("p", r)];
    var d := Decoded(signature, [closure]);
    assert PermissionStore.ReadsOf(seen, "p") == [r] by { assert PermissionStore.ReadsOf(seen[1..], "p") == []; }
    assert PermissionStore.ApplyAll(Some(s.rows["p"]), [r]) == PermissionStore.ApplyAll(PermissionStore.Apply(Some(s.rows["p"]), r), []);
    var s1 := Step(s, derive, Refresh(seen));
    assert s1.rows["p"].status == PermissionStore.Revoked;
    var look := Look(0, d, map[0 := []]);
    var s2 := Step(s1, derive, look);
    var s3 := Step(s2, derive, Commit(0, []));
    assert ClosureRows(d, map[0 := []], 1) == [] && DirectRows(d, 1) == [];
    assert Run(s1, derive, [look, Commit(0, [])]) == Run(s2, derive, [Commit(0, [])]);
    assert Run(s2, derive, [Commit(0, [])]) == Run(s3, derive, []);
  }

  // ---------------------------------------------------------------- the store itself

  class Store {
    const table: PermissionStore.AllowanceTable
    var feed: map<Key, Entry>

    constructor (table: PermissionStore.AllowanceTable)
      ensures this.table == table && feed == map[]
    {
      this.table := table;
      feed := map[];
    }

    /** What each closure of the transaction took down, looked up before the chain is read. */
    method LookUp(d: Decoded, derive: (string, string) -> string) returns (under: map<nat, seq<string>>)
      requires TransactionDecoder.Increasing(d.events)
      ensures LookedUp(table.rows, derive, d, under)
    {
      hide IsUnder, Distinct;
      under := map[];
      for i := 0 to |d.events|
        invariant forall p :: p in under ==> Distinct(under[p]) && exists k :: 0 <= k < i && d.events[k].position == p
        invariant forall k :: 0 <= k < i && d.events[k].body.Closure? ==>
                    d.events[k].position in under && IsAnswer(derive, d.events[k].body, under[d.events[k].position])
      {
        var e := d.events[i];
        if e.body.Closure? {
          var pdas := PermissionsUnder(table.rows, derive, e.body.owner, e.body.authority);
          under := under[e.position := pdas];
        }
      }
    }

    ghost predicate IsAnswer(derive: (string, string) -> string, body: Body, pdas: seq<string>)
      requires body.Closure?
      reads table
    {
      forall pda :: pda in pdas <==> IsUnder(table.rows, derive, body.owner, body.authority, pda)
    }

    /** The events of one transaction as rows, whether or not their permissions are tracked. */
    method PendingRows(d: Decoded, under: map<nat, seq<string>>) returns (pending: seq<Pending>)
      ensures pending == AllRows(d, under)
    {
      var direct := [];
      for i := 0 to |d.events|
        invariant direct == DirectRows(d, i)
      {
        var e := d.events[i];
        match AllowanceOf(e.body) {
          case Some(pda) => direct := direct + [Pending(Key(d.signature, e.position, pda), Direct(e.body))];
          case None =>
        }
      }
      var closures := [];
      for i := 0 to |d.events|
        invariant closures == ClosureRows(d, under, i)
      {
        var e := d.events[i];
        if e.body.Closure? && e.position in under {
          closures := closures + Expanded(d, e, under[e.position]);
        }
      }
      pending := direct + closures;
    }

    /**
     * The transaction of `write`: what the chain showed, then every tracked row that is
     * not there yet. Each tracked row is either inserted or a duplicate, never both.
     */
    method Commit(d: Decoded, under: map<nat, seq<string>>, seen: seq<(string, Read)>)
      returns (inserted: nat, duplicates: nat)
      requires TransactionDecoder.Increasing(d.events) && forall p :: p in under ==> Distinct(under[p])
      modifies this, table
      ensures table.rows == RowsAfter(old(table.rows), seen)
      ensures feed == Inserted(old(feed), table.rows.Keys, AllRows(d, under))
      ensures |feed| == |old(feed)| + inserted
      ensures inserted + duplicates == Tracked(AllRows(d, under), table.rows.Keys)
    {
      hide AllRows, Inserted;
      var _ := table.Refresh(seen);
      ReadsAreApplied(old(table.rows), table.rows, seen);
      var pending := PendingRows(d, under);
      inserted, duplicates := InsertTracked(pending);
    }

    method InsertTracked(pending: seq<Pending>) returns (inserted: nat, duplicates: nat)
      modifies this
      ensures feed == Inserted(old(feed), table.rows.Keys, pending)
      ensures |feed| == |old(feed)| + inserted
      ensures inserted + duplicates == Tracked(pending, table.rows.Keys)
    {
      inserted, duplicates := 0, 0;
      var k := 0;
      while k < |pending|
        invariant 0 <= k <= |pending|
        invariant Inserted(feed, table.rows.Keys, pending[k..]) == Inserted(old(feed), table.rows.Keys, pending)
        invariant |feed| == |old(feed)| + inserted
        invariant inserted + duplicates + Tracked(pending[k..], table.rows.Keys) == Tracked(pending, table.rows.Keys)
      {
        var row := pending[k];
        assert pending[k..][0] == row && pending[k..][1..] == pending[k + 1..];
        if row.key.pda in table.rows {
          if row.key in feed {
            duplicates := duplicates + 1;
          } else {
            feed := feed[row.key := row.entry];
            inserted := inserted + 1;
          }
        }
        k := k + 1;
      }
    }
  }

  ghost function Tracked(rows: seq<Pending>, tracked: set<string>): nat
    decreases |rows|
  {
    if rows == [] then 0 else (if rows[0].key.pda in tracked then 1 else 0) + Tracked(rows[1..], tracked)
  }

  lemma {:induction false} ReadsAreApplied(before: map<string, Row>, after: map<string, Row>, seen: seq<(string, Read)>)
    requires forall pda :: Lookup(after, pda)
                           == PermissionStore.ApplyAll(Lookup(before, pda), PermissionStore.ReadsOf(seen, pda))
    ensures after == RowsAfter(before, seen)
  {
    var spec := RowsAfter(before, seen);
    forall pda ensures Lookup(after, pda) == Lookup(spec, pda) {
      if pda !in before && forall i :: 0 <= i < |seen| ==> seen[i].0 != pda {
        UnseenHasNoReads(seen, pda);
      }
      assert Lookup(after, pda) == PermissionStore.ApplyAll(Lookup(before, pda), PermissionStore.ReadsOf(seen, pda));
    }
    assert after.Keys == spec.Keys by {
      forall pda ensures pda in after <==> pda in spec { assert Lookup(after, pda) == Lookup(spec, pda); }
    }
    forall pda | pda in after ensures after[pda] == spec[pda] { assert Lookup(after, pda) == Lookup(spec, pda); }
  }
}
