/**
 * The cached permission rows: slot-guarded writes of what the chain showed, with the
 * off-chain pause label laid over them.
 */
module PermissionStore {
  import opened Shared

  datatype Status = Active | Exhausted | Revoked | Paused

  /** The network's fields of a permission, without the status and the label. */
  datatype Network = Network(owner: string, mint: string, cap: nat, spent: nat, periodStartedAt: int, endsAt: Option<int>)

  datatype Row = Row(network: Network, status: Status, pausedAt: Option<int>, lastSlot: nat, syncedAt: int)

  /** One chain read. `status` of an open one is what the account says: never `Paused`. */
  datatype Read =
    | Open(slot: nat, network: Network, status: Status, at: int)
    | Closed(slot: nat, at: int)
    | Unreadable

  predicate FromChain(r: Read) {
    r.Open? ==> r.status != Paused
  }

  // ---------------------------------------------------------------- the two writes

  /** `upsertAllowance`: an active read leaves a set label, and its paused status, in place. */
  function Upsert(row: Option<Row>, slot: nat, network: Network, status: Status, at: int): Option<Row> {
    if row.None? then Some(Row(network, status, None, slot, at))
    else if row.value.lastSlot > slot then row
    else
      var kept := if status == Active then row.value.pausedAt else None;
      Some(Row(network, if row.value.pausedAt.Some? && status == Active then Paused else status, kept, slot, at))
  }

  /** `markClosed`: a row that is not there stays not there. */
  function MarkClosed(row: Option<Row>, slot: nat, at: int): Option<Row> {
    if row.None? || row.value.lastSlot > slot then row
    else Some(row.value.(status := Revoked, pausedAt := None, lastSlot := slot, syncedAt := at))
  }

  function Apply(row: Option<Row>, r: Read): Option<Row> {
    match r
    case Open(slot, network, status, at) => Upsert(row, slot, network, status, at)
    case Closed(slot, at) => MarkClosed(row, slot, at)
    case Unreadable => row
  }

  function ApplyAll(row: Option<Row>, seen: seq<Read>): Option<Row>
    decreases |seen|
  {
    if seen == [] then row else ApplyAll(Apply(row, seen[0]), seen[1..])
  }

  class AllowanceTable {
    var rows: map<string, Row>

    constructor ()
      ensures rows == map[]
    {
      rows := map[];
    }

    ghost function At(pda: string): Option<Row>
      reads this
    {
      if pda in rows then Some(rows[pda]) else None
    }

    method UpsertAllowance(pda: string, slot: nat, network: Network, status: Status, at: int)
      modifies this
      ensures At(pda) == Upsert(old(At(pda)), slot, network, status, at)
      ensures forall other :: other != pda ==> At(other) == old(At(other))
      // a new row is the read; a newer row stays; else the network's fields are the read's, and so is
      // the status, but that an active read keeps the label and the status it stands for
      ensures pda in rows
      ensures pda !in old(rows) ==> rows[pda] == Row(network, status, None, slot, at)
      ensures pda in old(rows) && slot < old(rows)[pda].lastSlot ==> rows[pda] == old(rows)[pda]
      ensures pda in old(rows) && old(rows)[pda].lastSlot <= slot ==>
                var was, row := old(rows)[pda], rows[pda];
                && row.network == network && row.lastSlot == slot && row.syncedAt == at
                && (status == Active && was.pausedAt.Some? ==> row.status == Paused && row.pausedAt == was.pausedAt)
                && (status != Active || was.pausedAt.None? ==> row.status == status && row.pausedAt == None)
    {
      if pda !in rows {
        rows := rows[pda := Row(network, status, None, slot, at)];
        return;
      }
      var row := rows[pda];
      if row.lastSlot <= slot {
        var paused := row.pausedAt.Some? && status == Active;
        rows := rows[pda := Row(network, if paused then Paused else status,
                                if status == Active then row.pausedAt else None, slot, at)];
      }
    }

    method MarkRowClosed(pda: string, slot: nat, at: int)
      modifies this
      ensures At(pda) == MarkClosed(old(At(pda)), slot, at)
      ensures forall other :: other != pda ==> At(other) == old(At(other))
      // the network's fields stay as last read
      ensures pda in rows <==> pda in old(rows)
      ensures pda in rows && slot < old(rows)[pda].lastSlot ==> rows[pda] == old(rows)[pda]
      ensures pda in rows && old(rows)[pda].lastSlot <= slot ==>
                rows[pda] == Row(old(rows)[pda].network, Revoked, None, slot, at)
    {
      if pda in rows && rows[pda].lastSlot <= slot {
        rows := rows[pda := rows[pda].(status := Revoked, pausedAt := None, lastSlot := slot, syncedAt := at)];
      }
    }

    /** `refresh`: every read into the cache; what the chain showed open is the answer. */
    method Refresh(seen: seq<(string, Read)>) returns (open: set<string>)
      modifies this
      ensures open == set i | 0 <= i < |seen| && seen[i].1.Open? :: seen[i].0
      ensures forall pda :: At(pda) == ApplyAll(old(At(pda)), ReadsOf(seen, pda))
    {
      hide ReadsOf, ApplyAll, Upsert, MarkClosed, LabelAgrees;
      open := {};
      var i := 0;
      forall pda ensures At(pda) == ApplyAll(old(At(pda)), ReadsOf(seen[..0], pda)) { NothingRead(At(pda), seen[..0], pda); }
      while i < |seen|
        invariant 0 <= i <= |seen|
        invariant open == set k | 0 <= k < i && seen[k].1.Open? :: seen[k].0
        invariant forall pda :: At(pda) == ApplyAll(old(At(pda)), ReadsOf(seen[..i], pda))
      {
        var (pda, r) := seen[i];
        ghost var before := rows;
        match r {
          case Open(slot, network, status, at) =>
            UpsertAllowance(pda, slot, network, status, at);
            open := open + {pda};
          case Closed(slot, at) => MarkRowClosed(pda, slot, at);
          case Unreadable =>
        }
        assert seen[..i + 1] == seen[..i] + [seen[i]];
        forall other ensures At(other) == ApplyAll(old(At(other)), ReadsOf(seen[..i + 1], other)) {
          ReadsOfAppend(seen[..i], seen[i], other);
          ApplyAppend(old(At(other)), ReadsOf(seen[..i], other), if other == pda then [r] else []);
          ApplyOne(ApplyAll(old(At(other)), ReadsOf(seen[..i], other)), r);
        }
        i := i + 1;
      }
      assert seen[..i] == seen;
    }
  }

  function ReadsOf(seen: seq<(string, Read)>, pda: string): seq<Read> {
    if seen == [] then []
    else (if seen[0].0 == pda then [seen[0].1] else []) + ReadsOf(seen[1..], pda)
  }

  lemma {:induction false} ReadsOfAppend(seen: seq<(string, Read)>, next: (string, Read), pda: string)
    ensures ReadsOf(seen + [next], pda) == ReadsOf(seen, pda) + if next.0 == pda then [next.1] else []
    decreases |seen|
  {
    if seen == [] {
      assert seen + [next] == [next] && [next][1..] == [];
      assert ReadsOf([next], pda) == (if next.0 == pda then [next.1] else []) + ReadsOf([], pda);
    } else {
      var all, first := seen + [next], if seen[0].0 == pda then [seen[0].1] else [];
      assert all[0] == seen[0] && all[1..] == seen[1..] + [next];
      ReadsOfAppend(seen[1..], next, pda);
      assert ReadsOf(all, pda) == first + ReadsOf(all[1..], pda);
    }
  }

  lemma {:induction false} NothingRead(row: Option<Row>, seen: seq<(string, Read)>, pda: string)
    requires seen == []
    ensures ApplyAll(row, ReadsOf(seen, pda)) == row
  {
  }

  lemma {:induction false} ApplyOne(row: Option<Row>, r: Read)
    ensures ApplyAll(row, [r]) == Apply(row, r) && ApplyAll(row, []) == row
  {
    assert ApplyAll(row, [r]) == ApplyAll(Apply(row, r), []);
  }

  lemma {:induction false} ApplyAppend(row: Option<Row>, a: seq<Read>, b: seq<Read>)
    ensures ApplyAll(row, a + b) == ApplyAll(ApplyAll(row, a), b)
    decreases |a|
  {
    if a == [] {
      assert a + b == b;
    } else {
      assert (a + b)[1..] == a[1..] + b;
      ApplyAppend(Apply(row, a[0]), a[1..], b);
    }
  }

  // ---------------------------------------------------------------- what every write keeps

  /** `status = paused` exactly when `pausedAt` is set. */
  predicate LabelAgrees(row: Row) {
    row.status == Paused <==> row.pausedAt.Some?
  }

  lemma {:induction false} WritesKeepTheRow(row: Row, seen: seq<Read>)
    requires LabelAgrees(row) && forall r :: r in seen ==> FromChain(r)
    ensures var after := ApplyAll(Some(row), seen);
            && after.Some? && LabelAgrees(after.value) && row.lastSlot <= after.value.lastSlot
    decreases |seen|
  {
    if seen != [] {
      assert seen[0] in seen;
      WritesKeepTheRow(Apply(Some(row), seen[0]).value, seen[1..]);
    }
  }

  // ---------------------------------------------------------------- convergence

  /** The status with our label taken off: what the chain would say. */
  function Unlabelled(s: Status): Status {
    if s == Paused then Active else s
  }

  function StatusOf(r: Read): Status
    requires !r.Unreadable?
  {
    if r.Open? then r.status else Revoked
  }

  /** Reads of one slot saw one state of the chain (they may have been made at different moments). */
  ghost predicate AgreePerSlot(seen: set<Read>) {
    forall a, b :: a in seen && b in seen && !a.Unreadable? && !b.Unreadable? && a.slot == b.slot ==>
      StatusOf(a) == StatusOf(b) && (a.Open? <==> b.Open?) && (a.Open? ==> a.network == b.network)
  }

  function Elements(seen: seq<Read>): set<Read> {
    set r | r in seen
  }

  ghost predicate Reflects(row: Row, r: Read)
    requires !r.Unreadable?
  {
    && row.lastSlot == r.slot
    && Unlabelled(row.status) == StatusOf(r)
    && (r.Open? ==> row.network == r.network)
  }

  /** The row a sequence leaves: untouched by older reads, else a reflection of its newest read. */
  lemma {:induction false} NewestWins(row: Row, seen: seq<Read>)
    requires LabelAgrees(row) && forall r :: r in seen ==> FromChain(r)
    ensures var after := ApplyAll(Some(row), seen);
            && after.Some?
            && (forall r :: r in seen && !r.Unreadable? ==> r.slot <= after.value.lastSlot)
            && (after == Some(row) || exists r :: r in seen && !r.Unreadable? && Reflects(after.value, r))
            && (forall r :: r in seen && !r.Unreadable? && r.slot >= row.lastSlot ==>
                  exists n :: n in seen && !n.Unreadable? && Reflects(after.value, n))
    decreases |seen|
  {
    if seen != [] {
      var first, rest := seen[0], seen[1..];
      assert seen == [first] + rest && first in seen;
      var next := Apply(Some(row), first).value;
      WritesKeepTheRow(row, [first]);
      assert ApplyAll(Some(row), [first]) == ApplyAll(Some(next), []);
      WritesKeepTheRow(next, rest);
      NewestWins(next, rest);
      var after := ApplyAll(Some(row), seen).value;
      if !first.Unreadable? && first.slot >= row.lastSlot && Some(after) == Some(next) {
        assert Reflects(after, first);
      }
      forall r | r in seen && !r.Unreadable? && r.slot >= row.lastSlot
        ensures exists n :: n in seen && !n.Unreadable? && Reflects(after, n)
      {
        if after == next {
          if first.Unreadable? || first.slot < row.lastSlot {
            assert r in rest;
          }
        } else {
          var n :| n in rest && !n.Unreadable? && Reflects(after, n);
          assert n in seen;
        }
      }
    }
  }

  /**
   * Convergence: once a row exists, any two orders of the same reads - replayed any
   * number of times - leave the same slot and, but for the pause label, the same
   * status; and the same network fields when the newest read found the account open.
   */
  lemma {:induction false} ReadsConverge(row: Row, a: seq<Read>, b: seq<Read>)
    requires LabelAgrees(row) && forall r :: r in a ==> FromChain(r)
    requires Elements(a) == Elements(b) && AgreePerSlot(Elements(a))
    ensures var x, y := ApplyAll(Some(row), a), ApplyAll(Some(row), b);
            && x.Some? && y.Some?
            && x.value.lastSlot == y.value.lastSlot
            && Unlabelled(x.value.status) == Unlabelled(y.value.status)
            && ((exists r :: r in a && r.Open? && r.slot == x.value.lastSlot) ==> x.value.network == y.value.network)
  {
    SameReads(a, b);
    NewestWins(row, a);
    NewestWins(row, b);
    var x, y := ApplyAll(Some(row), a).value, ApplyAll(Some(row), b).value;
    WritesKeepTheRow(row, a);
    WritesKeepTheRow(row, b);
    hide ApplyAll, LabelAgrees;
    if exists r :: r in a && !r.Unreadable? && r.slot >= row.lastSlot {
      var r :| r in a && !r.Unreadable? && r.slot >= row.lastSlot;
      var n :| n in a && !n.Unreadable? && Reflects(x, n);
      var m :| m in b && !m.Unreadable? && Reflects(y, m);
      assert n in b && m in a;
      assert n.slot == m.slot;
      assert n in Elements(a) && m in Elements(a);
      if o :| o in a && o.Open? && o.slot == x.lastSlot { assert o in Elements(a); }
    }
  }

  lemma {:induction false} SameReads(a: seq<Read>, b: seq<Read>)
    requires Elements(a) == Elements(b)
    ensures forall r :: r in a <==> r in b
  {
    forall r ensures r in a <==> r in b { assert r in Elements(a) <==> r in Elements(b); }
  }

  /**
   * The label depends on the order only through the reads that were not too old: it
   * survives exactly when each read that took effect found the permission active.
   */
  lemma {:induction false} LabelSurvivesIff(row: Row, seen: seq<Read>)
    requires LabelAgrees(row) && row.pausedAt.Some? && forall r :: r in seen ==> FromChain(r)
    ensures ApplyAll(Some(row), seen).Some?
    ensures ApplyAll(Some(row), seen).value.pausedAt == row.pausedAt <==> AllActive(Some(row), seen)
    ensures ApplyAll(Some(row), seen).value.pausedAt.Some? ==> AllActive(Some(row), seen)
    decreases |seen|
  {
    if seen != [] {
      assert seen[0] in seen;
      var next := Apply(Some(row), seen[0]).value;
      if next.pausedAt.Some? {
        LabelSurvivesIff(next, seen[1..]);
      } else {
        UnlabelledStays(next, seen[1..]);
      }
    }
  }

  /** Every read that takes effect, in this order, is active. */
  ghost predicate AllActive(row: Option<Row>, seen: seq<Read>)
    decreases |seen|
  {
    seen != [] ==>
      && (seen[0].Unreadable? || (row.Some? && row.value.lastSlot > seen[0].slot) || StatusOf(seen[0]) == Active)
      && AllActive(Apply(row, seen[0]), seen[1..])
  }

  lemma {:induction false} UnlabelledStays(row: Row, seen: seq<Read>)
    requires row.pausedAt.None?
    ensures ApplyAll(Some(row), seen).Some? && ApplyAll(Some(row), seen).value.pausedAt.None?
    decreases |seen|
  {
    if seen != [] { UnlabelledStays(Apply(Some(row), seen[0]).value, seen[1..]); }
  }

  // ---------------------------------------------------------------- before there is a row

  /** The same row but for the moment it was read. */
  predicate SameRow(x: Option<Row>, y: Option<Row>) {
    if x.None? || y.None? then x == y
    else x.value == y.value.(syncedAt := x.value.syncedAt)
  }

  /** `open` is among the reads and none is newer. */
  ghost predicate NewestIsOpen(seen: set<Read>, open: Read) {
    open in seen && open.Open? && forall r :: r in seen && !r.Unreadable? ==> r.slot <= open.slot
  }

  predicate Shows(row: Option<Row>, open: Read)
    requires open.Open?
  {
    row.Some? && row.value == Row(open.network, open.status, None, open.slot, row.value.syncedAt)
  }

  /** No newer than `open`, and of its slot only what agrees with it. */
  ghost predicate NoneNewer(seen: seq<Read>, open: Read)
    requires open.Open?
  {
    forall r :: r in seen && !r.Unreadable? ==>
      r.slot < open.slot || (r.slot == open.slot && r.Open? && r.status == open.status && r.network == open.network)
  }

  lemma {:induction false} ShownStays(row: Option<Row>, seen: seq<Read>, open: Read)
    requires open.Open? && FromChain(open) && Shows(row, open) && NoneNewer(seen, open)
    ensures Shows(ApplyAll(row, seen), open)
    decreases |seen|
  {
    if seen != [] {
      assert seen[0] in seen;
      ShownStays(Apply(row, seen[0]), seen[1..], open);
    }
  }

  /** Whatever the order, a newest read that is open is what the row shows. */
  lemma {:induction false} NewestOpenIsShown(row: Option<Row>, seen: seq<Read>, open: Read)
    requires open.Open? && FromChain(open) && open in seen && NoneNewer(seen, open)
    requires row.Some? ==> row.value.lastSlot <= open.slot && row.value.pausedAt.None?
    ensures Shows(ApplyAll(row, seen), open)
    decreases |seen|
  {
    var first, rest := seen[0], seen[1..];
    assert seen == [first] + rest && first in seen;
    assert NoneNewer(rest, open);
    if first == open {
      ShownStays(Apply(row, first), rest, open);
    } else {
      NewestOpenIsShown(Apply(row, first), rest, open);
    }
  }

  lemma {:induction false} NothingShown(seen: seq<Read>)
    requires forall r :: r in seen ==> !r.Open?
    ensures ApplyAll(None, seen) == None
    decreases |seen|
  {
    if seen != [] {
      assert seen[0] in seen;
      NothingShown(seen[1..]);
    }
  }

  /** Only open reads, on no row or on one that open reads left: its slot is one of theirs. */
  lemma {:induction false} SlotOfAnOpen(row: Option<Row>, seen: seq<Read>, bound: nat)
    requires forall r :: r in seen ==> r.Open? && r.slot < bound
    requires row.Some? ==> row.value.lastSlot < bound
    ensures var after := ApplyAll(row, seen); after.Some? ==> after.value.lastSlot < bound
    ensures (row.Some? || seen != []) ==> ApplyAll(row, seen).Some?
    decreases |seen|
  {
    if seen != [] {
      assert seen[0] in seen;
      SlotOfAnOpen(Apply(row, seen[0]), seen[1..], bound);
    }
  }

  function Opens(seen: seq<Read>, open: bool): (r: seq<Read>)
    ensures forall x :: x in r <==> x in seen && x.Open? == open
  {
    if seen == [] then []
    else
      assert forall x :: x in seen <==> x == seen[0] || x in seen[1..];
      (if seen[0].Open? == open then [seen[0]] else []) + Opens(seen[1..], open)
  }

  lemma {:induction false} OpensBothWays(seen: seq<Read>)
    ensures Elements(Opens(seen, false) + Opens(seen, true)) == Elements(seen)
    ensures Elements(Opens(seen, true) + Opens(seen, false)) == Elements(seen)
  {
    var opens, others := Opens(seen, true), Opens(seen, false);
    forall x ensures x in opens + others <==> x in seen { assert x in opens + others <==> x in opens || x in others; }
    forall x ensures x in others + opens <==> x in seen { assert x in others + opens <==> x in opens || x in others; }
  }

  /** All orders and repetitions of these reads leave the same row, starting from none. */
  ghost predicate ConvergesFromNothing(seen: seq<Read>) {
    forall x, y :: Elements(x) == Elements(seen) && Elements(y) == Elements(seen) ==>
      SameRow(ApplyAll(None, x), ApplyAll(None, y))
  }

  /** Closed last: whatever opened the row is overtaken; closed first: it is forgotten. */
  lemma {:induction false} NewestClosedDiverges(seen: seq<Read>, open: Read, closed: Read)
    requires forall r :: r in seen ==> FromChain(r)
    requires open in seen && open.Open? && closed in seen && closed.Closed?
    requires forall r :: r in seen && r.Open? ==> r.slot < closed.slot
    ensures !ConvergesFromNothing(seen)
  {
    var opens, others := Opens(seen, true), Opens(seen, false);
    OpensBothWays(seen);
    NothingShown(others);
    ApplyAppend(None, others, opens);
    SlotOfAnOpen(None, opens, closed.slot);
    ApplyAppend(None, opens, others);
    var row := ApplyAll(None, opens).value;
    LabelOfOpens(None, opens);
    NewestWins(row, others);
    var first, last := ApplyAll(None, others + opens), ApplyAll(None, opens + others);
    assert first == ApplyAll(None, opens) && last == ApplyAll(Some(row), others);
    assert closed in others && first.value.lastSlot < closed.slot <= last.value.lastSlot;
    assert !SameRow(first, last);
  }

  lemma {:induction false} LabelOfOpens(row: Option<Row>, seen: seq<Read>)
    requires forall r :: r in seen ==> FromChain(r)
    requires row.Some? ==> LabelAgrees(row.value)
    ensures ApplyAll(row, seen).Some? ==> LabelAgrees(ApplyAll(row, seen).value)
    decreases |seen|
  {
    if seen != [] {
      assert seen[0] in seen;
      LabelOfOpens(Apply(row, seen[0]), seen[1..]);
    }
  }

  lemma {:induction false} NewestOpenConverges(seen: seq<Read>, open: Read)
    requires forall r :: r in seen ==> FromChain(r)
    requires AgreePerSlot(Elements(seen)) && NewestIsOpen(Elements(seen), open)
    ensures ConvergesFromNothing(seen)
  {
    forall x, y | Elements(x) == Elements(seen) && Elements(y) == Elements(seen)
      ensures SameRow(ApplyAll(None, x), ApplyAll(None, y))
    {
      SameReads(x, seen);
      SameReads(y, seen);
      forall r | r in seen && !r.Unreadable? && r.slot == open.slot
        ensures r.Open? && r.status == open.status && r.network == open.network
      {
        assert r in Elements(seen) && open in Elements(seen);
      }
      assert forall r :: r in seen ==> r in Elements(seen);
      hide AgreePerSlot;
      NewestOpenIsShown(None, x, open);
      NewestOpenIsShown(None, y, open);
    }
  }

  lemma {:induction false} NoOpenConverges(seen: seq<Read>)
    requires forall r :: r in seen ==> !r.Open?
    ensures ConvergesFromNothing(seen)
  {
    forall x, y | Elements(x) == Elements(seen) && Elements(y) == Elements(seen)
      ensures SameRow(ApplyAll(None, x), ApplyAll(None, y))
    {
      SameReads(x, seen);
      SameReads(y, seen);
      NothingShown(x);
      NothingShown(y);
    }
  }

  lemma {:induction false} HasNewestOpen(seen: seq<Read>, open: Read) returns (newest: Read)
    requires open in seen && open.Open?
    ensures newest in seen && newest.Open? && forall r :: r in seen && r.Open? ==> r.slot <= newest.slot
    decreases |seen|
  {
    var first, rest := seen[0], seen[1..];
    assert forall r :: r in seen <==> r == first || r in rest;
    if other :| other in rest && other.Open? {
      newest := HasNewestOpen(rest, other);
      if first.Open? && first.slot > newest.slot { newest := first; }
    } else {
      newest := first;
    }
  }

  /**
   * Without a row the order matters: a close that comes first is forgotten, and an older
   * open read then leaves a live row. Every order and repetition of a set of reads leaves
   * the same row exactly when none of them is open, or each close is older than some open
   * read.
   */
  lemma {:induction false} MissingRowConvergesIff(seen: seq<Read>)
    requires forall r :: r in seen ==> FromChain(r)
    requires AgreePerSlot(Elements(seen))
    ensures ConvergesFromNothing(seen)
            <==> ((forall r :: r in seen ==> !r.Open?)
                  || forall c :: c in seen && c.Closed? ==> exists o :: o in seen && o.Open? && c.slot < o.slot)
  {
    hide ConvergesFromNothing;
    if forall r :: r in seen ==> !r.Open? {
      NoOpenConverges(seen);
    } else {
      var open :| open in seen && open.Open?;
      var newest := HasNewestOpen(seen, open);
      if c :| c in seen && c.Closed? && !(exists o :: o in seen && o.Open? && c.slot < o.slot) {
        forall r | r in seen && r.Open? ensures r.slot < c.slot {
          assert r in Elements(seen) && c in Elements(seen);
        }
        NewestClosedDiverges(seen, open, c);
      } else {
        forall r | r in Elements(seen) && !r.Unreadable? ensures r.slot <= newest.slot {
          if r.Closed? {
            var o :| o in seen && o.Open? && r.slot < o.slot;
          }
        }
        NewestOpenConverges(seen, newest);
      }
    }
  }

  /** Two reads alone, also of one slot: their two orders agree exactly when the close is the older, or the open read is revoked at its slot. */
  lemma {:induction false} TwoReadsConvergeIff(open: Read, closed: Read)
    requires open.Open? && closed.Closed? && FromChain(open)
    ensures var x, y := ApplyAll(None, [open, closed]), ApplyAll(None, [closed, open]);
            && x.Some? && y.Some?
            && (x.value.lastSlot == y.value.lastSlot && x.value.status == y.value.status
                <==> closed.slot < open.slot || (closed.slot == open.slot && open.status == Revoked))
  {
    assert ApplyAll(None, [open, closed]) == ApplyAll(Apply(None, open), [closed]);
    assert ApplyAll(Apply(None, open), [closed]) == ApplyAll(Apply(Apply(None, open), closed), []);
    assert ApplyAll(None, [closed, open]) == ApplyAll(Apply(None, closed), [open]);
    assert ApplyAll(Apply(None, closed), [open]) == ApplyAll(Apply(Apply(None, closed), open), []);
  }
}
