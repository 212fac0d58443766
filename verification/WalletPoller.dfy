/**
 * The polling fallback: one cursor per address, moved only after everything before
 * it is stored. `history` is the chain's history up to the end of the run; a read
 * sees a prefix of it (`head`), and a transaction is named by its place in it.
 * What the node, the database and the abort signal do in a round is its `Environment`.
 */
module WalletPoller {
  import opened Shared

  type Address = string

  datatype Tx = Tx(slot: nat, blockTime: Option<int>, touches: set<Address>)

  const PAGE: nat := 1000
  const MAX_PAGES: nat := 10

  ghost predicate InChainOrder(history: seq<Tx>) {
    forall p, q :: 0 <= p <= q < |history| ==> history[p].slot <= history[q].slot
  }

  // ---------------------------------------------------------------- what the node lists

  ghost predicate Within(s: seq<nat>, n: nat) {
    forall i :: 0 <= i < |s| ==> s[i] < n
  }

  ghost predicate NewestFirst(s: seq<nat>) {
    forall i, j :: 0 <= i < j < |s| ==> s[i] > s[j]
  }

  lemma {:induction false} WithinPart(s: seq<nat>, n: nat, m: nat, k: nat)
    requires Within(s, n) && n <= m && k <= |s|
    ensures Within(s[..k], m)
  {
  }

  /** The transactions at `a` after place `after` and before `hi`, newest first. */
  function Listing(history: seq<Tx>, a: Address, after: int, hi: nat): (l: seq<nat>)
    requires hi <= |history|
    ensures Within(l, hi) && NewestFirst(l)
    ensures forall p: nat :: p in l <==> after < p < hi && a in history[p].touches
  {
    if hi == 0 || hi - 1 <= after then []
    else
      var rest := Listing(history, a, after, hi - 1);
      if a in history[hi - 1].touches then [hi - 1] + rest else rest
  }

  /** Asking for what is older than the `i`-th listed one continues the same listing. */
  lemma {:induction false} ListingBefore(history: seq<Tx>, a: Address, after: int, hi: nat, i: nat)
    requires hi <= |history| && i < |Listing(history, a, after, hi)|
    ensures var l := Listing(history, a, after, hi);
            && l[i] < hi
            && Listing(history, a, after, l[i]) == l[i + 1..]
  {
    var l := Listing(history, a, after, hi);
    var rest := Listing(history, a, after, hi - 1);
    if a in history[hi - 1].touches {
      assert l[1..] == rest;
      if i > 0 {
        ListingBefore(history, a, after, hi - 1, i - 1);
        assert l[i + 1..] == rest[i..];
      }
    } else {
      ListingBefore(history, a, after, hi - 1, i);
    }
  }

  // ---------------------------------------------------------------- the retention cut

  predicate Old(tx: Tx, cut: Option<int>) {
    cut.Some? && tx.blockTime.Some? && tx.blockTime.value < cut.value
  }

  /** `p` is no newer than some transaction at `a` that is known to be before the cut. */
  ghost predicate BeforeCut(history: seq<Tx>, a: Address, p: nat, cut: Option<int>) {
    exists q: nat :: p <= q < |history| && a in history[q].touches && Old(history[q], cut)
  }

  function Kept(history: seq<Tx>, batch: seq<nat>, cut: Option<int>): (r: seq<nat>)
    requires Within(batch, |history|)
    ensures |r| <= |batch|
  {
    if batch == [] then []
    else (if Old(history[batch[0]], cut) then [] else [batch[0]]) + Kept(history, batch[1..], cut)
  }

  /** Only a transaction known to be older than the cut is left out; one without a block time is kept. */
  lemma {:induction false} KeptExactly(history: seq<Tx>, batch: seq<nat>, cut: Option<int>, p: nat)
    requires Within(batch, |history|)
    ensures p in Kept(history, batch, cut) <==>
              p in batch && p < |history|
              && !(cut.Some? && history[p].blockTime.Some? && history[p].blockTime.value < cut.value)
    decreases |batch|
  {
    if batch != [] {
      KeptExactly(history, batch[1..], cut, p);
      assert p in batch <==> p == batch[0] || p in batch[1..];
    }
  }

  lemma {:induction false} KeptIsTheRest(history: seq<Tx>, batch: seq<nat>, cut: Option<int>)
    requires Within(batch, |history|)
    ensures var r := Kept(history, batch, cut);
            && (forall j :: 0 <= j < |r| ==> r[j] in batch)
            && (forall i :: 0 <= i < |batch| ==> batch[i] in r || Old(history[batch[i]], cut))
    decreases |batch|
  {
    if batch != [] {
      KeptIsTheRest(history, batch[1..], cut);
      var rest := Kept(history, batch[1..], cut);
      var r := Kept(history, batch, cut);
      forall j | 0 <= j < |r| ensures r[j] in batch {
        if |r| == |rest| { assert r == rest; assert rest[j] in batch[1..]; }
        else if j > 0 { assert r[j] == rest[j - 1]; assert rest[j - 1] in batch[1..]; }
      }
      forall i | 0 <= i < |batch| ensures batch[i] in r || Old(history[batch[i]], cut) {
        if i > 0 { assert batch[i] == batch[1..][i - 1]; }
      }
    }
  }

  lemma {:induction false} FirstIsNewest(s: seq<nat>, q: nat)
    requires s != [] && NewestFirst(s) && q in s[1..]
    ensures q < s[0]
  {
    var i :| 0 <= i < |s[1..]| && s[1..][i] == q;
    assert s[i + 1] == q;
  }

  lemma {:induction false} PutNewest(p: nat, s: seq<nat>)
    requires NewestFirst(s) && forall j :: 0 <= j < |s| ==> s[j] < p
    ensures NewestFirst([p] + s)
  {
  }

  lemma {:induction false} KeptInOrder(history: seq<Tx>, batch: seq<nat>, cut: Option<int>)
    requires Within(batch, |history|) && NewestFirst(batch)
    ensures NewestFirst(Kept(history, batch, cut))
    decreases |batch|
  {
    if batch != [] {
      assert NewestFirst(batch[1..]);
      hide NewestFirst, Old;
      KeptInOrder(history, batch[1..], cut);
      KeptIsTheRest(history, batch[1..], cut);
      var rest := Kept(history, batch[1..], cut);
      forall j | 0 <= j < |rest| ensures rest[j] < batch[0] { FirstIsNewest(batch, rest[j]); }
      PutNewest(batch[0], rest);
      assert [] + rest == rest;
    } else {
      assert Kept(history, batch, cut) == batch;
    }
  }

  /** A page that lost something lost it to the cut. */
  lemma {:induction false} KeptShorter(history: seq<Tx>, batch: seq<nat>, cut: Option<int>) returns (i: nat)
    requires Within(batch, |history|) && |Kept(history, batch, cut)| < |batch|
    ensures i < |batch| && Old(history[batch[i]], cut)
    decreases |batch|
  {
    hide Old;
    if Old(history[batch[0]], cut) { return 0; }
    i := KeptShorter(history, batch[1..], cut);
    assert batch[i + 1] == batch[1..][i];
    i := i + 1;
  }

  lemma {:induction false} KeptWhole(history: seq<Tx>, batch: seq<nat>, cut: Option<int>)
    requires Within(batch, |history|) && |Kept(history, batch, cut)| == |batch|
    ensures forall i :: 0 <= i < |batch| ==> !Old(history[batch[i]], cut)
    decreases |batch|
  {
    hide Old;
    if batch != [] {
      KeptWhole(history, batch[1..], cut);
      forall i | 0 <= i < |batch| ensures !Old(history[batch[i]], cut) {
        if i > 0 { assert batch[i] == batch[1..][i - 1]; }
      }
    }
  }

  // ---------------------------------------------------------------- the order of storing

  ghost predicate BySlot(history: seq<Tx>, s: seq<nat>) {
    && Within(s, |history|)
    && (forall i, j :: 0 <= i < j < |s| ==> history[s[i]].slot <= history[s[j]].slot)
  }

  function Insert(history: seq<Tx>, p: nat, s: seq<nat>): (r: seq<nat>)
    requires p < |history| && BySlot(history, s)
    ensures BySlot(history, r) && |r| == |s| + 1 && (forall q :: q in r <==> q == p || q in s)
  {
    if s == [] || history[p].slot <= history[s[0]].slot then [p] + s
    else
      var rest := Insert(history, p, s[1..]);
      assert forall j :: 0 <= j < |rest| ==> rest[j] in rest;
      assert s == [s[0]] + s[1..];
      [s[0]] + rest
  }

  // ---------------------------------------------------------------- one address, read to its head

  /** `items` and `lost` account for everything at `a` after `from`, but for what is before the cut. */
  ghost predicate Covers(history: seq<Tx>, a: Address, from: Option<nat>, head: nat, cut: Option<int>,
                         items: seq<nat>, lost: set<nat>)
    requires head <= |history|
  {
    && NewestFirst(items) && Within(items, head)
    && (forall j :: 0 <= j < |items| ==>
          a in history[items[j]].touches && (from.Some? ==> items[j] > from.value))
    && (forall p: nat {:trigger p in items} :: p < head && a in history[p].touches && (from.Some? ==> p > from.value)
          ==> p in items || p in lost || BeforeCut(history, a, p, cut))
  }

  function After(from: Option<nat>): int {
    if from.Some? then from.value else -1
  }

  /** The last page read was short, or lost something to the cut. */
  ghost predicate LastPage(history: seq<Tx>, cut: Option<int>, all: seq<nat>, read: nat, batch: seq<nat>)
    requires Within(batch, |history|)
  {
    && read + |batch| <= |all| && batch == all[read..read + |batch|]
    && (|Kept(history, batch, cut)| < |batch| || read + |batch| == |all|)
  }

  lemma {:induction false} LastPageListed(history: seq<Tx>, cut: Option<int>, all: seq<nat>, read: nat, batch: seq<nat>, j: nat)
    requires Within(batch, |history|) && LastPage(history, cut, all, read, batch)
    requires j < |Kept(history, batch, cut)|
    ensures exists i :: read <= i < |all| && all[i] == Kept(history, batch, cut)[j]
  {
    KeptIsTheRest(history, batch, cut);
    var i :| 0 <= i < |batch| && batch[i] == Kept(history, batch, cut)[j];
    assert all[read + i] == batch[i];
  }

  lemma {:induction false} LastPageInOrder(history: seq<Tx>, cut: Option<int>, all: seq<nat>, read: nat, batch: seq<nat>)
    requires Within(all, |history|) && NewestFirst(all) && Within(batch, |history|)
    requires LastPage(history, cut, all, read, batch)
    ensures var items := all[..read] + Kept(history, batch, cut);
            NewestFirst(items) && forall j :: 0 <= j < |items| ==> items[j] in all
  {
    hide Kept, Within;
    var kept := Kept(history, batch, cut);
    assert NewestFirst(kept) by {
      assert NewestFirst(batch);
      KeptInOrder(history, batch, cut);
    }
    forall j | 0 <= j < |kept| ensures kept[j] in all && (read > 0 ==> kept[j] < all[read - 1]) {
      LastPageListed(history, cut, all, read, batch, j);
    }
  }

  lemma {:induction false} LastPageMissesNothing(history: seq<Tx>, a: Address, cut: Option<int>,
                              all: seq<nat>, read: nat, batch: seq<nat>, i: nat)
    requires Within(all, |history|) && NewestFirst(all) && Within(batch, |history|)
    requires forall j :: 0 <= j < |all| ==> a in history[all[j]].touches
    requires LastPage(history, cut, all, read, batch) && i < |all|
    ensures all[i] in all[..read] + Kept(history, batch, cut) || BeforeCut(history, a, all[i], cut)
  {
    var kept := Kept(history, batch, cut);
    if i < read {
      assert all[i] == (all[..read] + kept)[i];
    } else if i < read + |batch| {
      KeptIsTheRest(history, batch, cut);
      assert all[i] == batch[i - read];
      if !Old(history[all[i]], cut) {
        assert all[i] in kept;
      }
    } else {
      var j := KeptShorter(history, batch, cut);
      assert batch[j] == all[read + j] && all[i] < all[read + j];
    }
  }

  lemma {:induction false} CoversListing(history: seq<Tx>, a: Address, from: Option<nat>, head: nat, cut: Option<int>,
                      all: seq<nat>, items: seq<nat>)
    requires head <= |history| && all == Listing(history, a, After(from), head)
    requires NewestFirst(items) && forall j :: 0 <= j < |items| ==> items[j] in all
    requires forall i :: 0 <= i < |all| ==> all[i] in items || BeforeCut(history, a, all[i], cut)
    ensures Covers(history, a, from, head, cut, items, {})
  {
    hide Listing, BeforeCut, NewestFirst;
    assert Within(items, head);
    forall p: nat | p < head && a in history[p].touches && (from.Some? ==> p > from.value)
      ensures p in items || BeforeCut(history, a, p, cut)
    {
      assert p in all;
    }
  }

  lemma {:induction false} LastPageCovers(history: seq<Tx>, a: Address, from: Option<nat>, head: nat, cut: Option<int>,
                       read: nat, batch: seq<nat>)
    requires head <= |history| && Within(batch, |history|)
    requires LastPage(history, cut, Listing(history, a, After(from), head), read, batch)
    ensures var all := Listing(history, a, After(from), head);
            Covers(history, a, from, head, cut, all[..read] + Kept(history, batch, cut), {})
  {
    var all := Listing(history, a, After(from), head);
    assert forall j :: 0 <= j < |all| ==> all[j] in all;
    LastPageInOrder(history, cut, all, read, batch);
    hide Kept, LastPage, NewestFirst, BeforeCut, Listing, Covers;
    forall i | 0 <= i < |all|
      ensures all[i] in all[..read] + Kept(history, batch, cut) || BeforeCut(history, a, all[i], cut)
    {
      LastPageMissesNothing(history, a, cut, all, read, batch, i);
    }
    CoversListing(history, a, from, head, cut, all, all[..read] + Kept(history, batch, cut));
  }

  lemma {:induction false} GapCovers(history: seq<Tx>, a: Address, from: Option<nat>, head: nat, cut: Option<int>, read: nat)
    requires head <= |history|
    requires read <= |Listing(history, a, After(from), head)|
    ensures var all := Listing(history, a, After(from), head);
            Covers(history, a, from, head, cut, all[..read], set p | p in all[read..])
  {
    var all := Listing(history, a, After(from), head);
    assert forall j :: 0 <= j < |all| ==> all[j] in all;
    assert all == all[..read] + all[read..];
  }

  /** Ten full pages at `a` are newer than `p`: it is past the page limit. */
  ghost predicate OutOfReach(history: seq<Tx>, a: Address, p: nat) {
    exists newer: seq<nat> :: |newer| == PAGE * MAX_PAGES && NewerThan(history, a, p, newer)
  }

  ghost predicate NewerThan(history: seq<Tx>, a: Address, p: nat, newer: seq<nat>) {
    && NewestFirst(newer) && Within(newer, |history|) && p < |history| && a in history[p].touches
    && forall j :: 0 <= j < |newer| ==> p < newer[j] && a in history[newer[j]].touches
  }

  /** Nothing old is returned, and what is named as lost lies behind ten full pages of what is. */
  ghost predicate NamesOnlyLost(history: seq<Tx>, a: Address, cut: Option<int>, items: seq<nat>, lost: set<nat>)
    requires Within(items, |history|)
  {
    && (forall j :: 0 <= j < |items| ==> !Old(history[items[j]], cut))
    && (lost != {} ==> |items| == PAGE * MAX_PAGES)
    && (forall p :: p in lost ==> NewerThan(history, a, p, items))
  }

  lemma {:induction false} KeptAreNotOld(history: seq<Tx>, batch: seq<nat>, cut: Option<int>)
    requires Within(batch, |history|)
    ensures var r := Kept(history, batch, cut);
            Within(r, |history|) && forall j :: 0 <= j < |r| ==> !Old(history[r[j]], cut)
    decreases |batch|
  {
    if batch != [] { KeptAreNotOld(history, batch[1..], cut); }
  }

  lemma {:induction false} GapIsNamed(history: seq<Tx>, a: Address, from: Option<nat>, head: nat, cut: Option<int>, read: nat)
    requires head <= |history| && read == PAGE * MAX_PAGES
    requires read <= |Listing(history, a, After(from), head)|
    requires var all := Listing(history, a, After(from), head);
             forall j :: 0 <= j < read ==> !Old(history[all[j]], cut)
    ensures var all := Listing(history, a, After(from), head);
            Within(all[..read], |history|) && NamesOnlyLost(history, a, cut, all[..read], set p | p in all[read..])
  {
    var all := Listing(history, a, After(from), head);
    assert forall j :: 0 <= j < |all| ==> all[j] in all;
    hide Listing, Old;
    forall p | p in all[read..] ensures NewerThan(history, a, p, all[..read]) {
      var i :| 0 <= i < |all[read..]| && all[read..][i] == p;
      assert p == all[read + i] && p in all;
    }
  }

  // ---------------------------------------------------------------- the wallet book

  datatype Db = Db(
    stored: set<nat>,
    reported: set<nat>,
    cursors: map<Address, nat>,
    cuts: map<Address, Option<int>>,   // specification only: the cut an address was first read with
    synced: map<Address, int>)

  ghost predicate Done(history: seq<Tx>, db: Db, a: Address, p: nat, cut: Option<int>) {
    p in db.stored || p in db.reported || BeforeCut(history, a, p, cut)
  }

  /** Every transaction at or before an address's cursor was stored, reported, or is before the cut. */
  ghost predicate Sound(history: seq<Tx>, db: Db) {
    && db.cuts.Keys == db.cursors.Keys
    && (forall a :: a in db.cursors ==> db.cursors[a] < |history|)
    && (forall a, p: nat :: a in db.cursors && p <= db.cursors[a] && a in history[p].touches
          ==> Done(history, db, a, p, db.cuts[a]))
  }

  // ---------------------------------------------------------------- what a round meets

  /** What handling one transaction comes to. */
  datatype Outcome =
    | Stored
    | GivenUp                      // and said so in the log
    | ReadThrows
    | SinkThrows(committed: bool)  // the database may have committed before the error
    | Aborted

  /** `headOf(a)` is how long the history is when address `a` is read, `cutOf(a)` the cut at that moment. */
  datatype Environment = Environment(
    headOf: Address -> nat,
    cutOf: Address -> Option<int>,
    pageFails: (Address, nat) -> bool,
    outcomeOf: nat -> Outcome,
    advanceFails: Address -> bool,
    syncFails: bool)

  /** Nothing fails in the round. */
  ghost predicate Calm(env: Environment) {
    && (forall a, page :: !env.pageFails(a, page))
    && (forall p :: env.outcomeOf(p).Stored? || env.outcomeOf(p).GivenUp?)
    && (forall a :: !env.advanceFails(a)) && !env.syncFails
  }

  datatype Round = Round(owner: Address, addresses: seq<Address>, startHead: nat, startedAt: int, env: Environment)

  ghost predicate IsRound(history: seq<Tx>, r: Round) {
    && Distinct(r.addresses)
    && forall a :: a in r.addresses ==> r.startHead <= r.env.headOf(a) <= |history|
  }

  /** The transactions of `order` one after another, until one throws: the database, and whether all were handled. */
  function HandleAll(db: Db, order: seq<nat>, outcomeOf: nat -> Outcome): (Db, bool)
    decreases |order|
  {
    if order == [] then (db, true)
    else
      match outcomeOf(order[0])
      case Stored => HandleAll(db.(stored := db.stored + {order[0]}), order[1..], outcomeOf)
      case GivenUp => HandleAll(db.(reported := db.reported + {order[0]}), order[1..], outcomeOf)
      case SinkThrows(committed) => (if committed then db.(stored := db.stored + {order[0]}) else db, false)
      case _ => (db, false)
  }

  lemma {:induction false} HandleAllIs(db: Db, order: seq<nat>, outcomeOf: nat -> Outcome)
    ensures var (after, ok) := HandleAll(db, order, outcomeOf);
            && after == db.(stored := after.stored, reported := after.reported)
            && db.stored <= after.stored && db.reported <= after.reported
            && (forall p :: p in after.stored && p !in db.stored ==>
                  p in order && (outcomeOf(p).Stored? || outcomeOf(p) == SinkThrows(true)))
            && (forall p :: p in after.reported && p !in db.reported ==> p in order && outcomeOf(p).GivenUp?)
            && (ok ==> forall p :: p in order ==> p in after.stored || p in after.reported)
            && (ok <==> forall p :: p in order ==> outcomeOf(p).Stored? || outcomeOf(p).GivenUp?)
    decreases |order|
  {
    if order != [] {
      var p := order[0];
      assert forall q :: q in order <==> q == p || q in order[1..];
      match outcomeOf(p)
      case Stored => HandleAllIs(db.(stored := db.stored + {p}), order[1..], outcomeOf);
      case GivenUp => HandleAllIs(db.(reported := db.reported + {p}), order[1..], outcomeOf);
      case _ =>
    }
  }

  /** As long as none threw each is where its outcome puts it; and a commit before a throw counts. */
  lemma {:induction false} HandledSoFar(db: Db, order: seq<nat>, outcomeOf: nat -> Outcome, k: nat)
    requires k < |order| && forall i :: 0 <= i < k ==> outcomeOf(order[i]).Stored? || outcomeOf(order[i]).GivenUp?
    ensures var after := HandleAll(db, order, outcomeOf).0;
            && (outcomeOf(order[k]).Stored? || outcomeOf(order[k]) == SinkThrows(true) ==> order[k] in after.stored)
            && (outcomeOf(order[k]).GivenUp? ==> order[k] in after.reported)
    decreases |order|
  {
    var next := if outcomeOf(order[0]).Stored? then db.(stored := db.stored + {order[0]})
                else db.(reported := db.reported + {order[0]});
    if k > 0 {
      HandledSoFar(next, order[1..], outcomeOf, k - 1);
    } else {
      HandleAllIs(next, order[1..], outcomeOf);
    }
  }

  lemma {:induction false} HandleFirst(db: Db, order: seq<nat>, outcomeOf: nat -> Outcome)
    requires order != []
    ensures var p := order[0];
            HandleAll(db, order, outcomeOf)
            == match outcomeOf(p)
               case Stored => HandleAll(db.(stored := db.stored + {p}), order[1..], outcomeOf)
               case GivenUp => HandleAll(db.(reported := db.reported + {p}), order[1..], outcomeOf)
               case SinkThrows(committed) => (if committed then db.(stored := db.stored + {p}) else db, false)
               case _ => (db, false)
  {
  }

  lemma {:induction false} HandleNone(db: Db, order: seq<nat>, outcomeOf: nat -> Outcome)
    requires order == []
    ensures HandleAll(db, order, outcomeOf) == (db, true)
  {
  }

  /** How many addresses the cursors' loop gets past before the database fails. */
  function Stops(addresses: seq<Address>, heads: map<Address, nat>, fails: Address -> bool): (k: nat)
    ensures k <= |addresses|
    ensures forall i :: 0 <= i < k && addresses[i] in heads ==> !fails(addresses[i])
    ensures k < |addresses| ==> addresses[k] in heads && fails(addresses[k])
    decreases |addresses|
  {
    if addresses == [] || (addresses[0] in heads && fails(addresses[0])) then 0
    else
      var k := Stops(addresses[1..], heads, fails);
      assert forall i :: 0 < i <= k ==> addresses[i] == addresses[1..][i - 1];
      1 + k
  }

  /** The cursors with those of `moved` at their heads. */
  function Moved(cursors: map<Address, nat>, heads: map<Address, nat>, moved: seq<Address>): map<Address, nat> {
    map a | a in cursors.Keys + heads.Keys && (a in cursors || a in moved)
      :: if a in heads && a in moved then heads[a] else cursors[a]
  }

  /** A moved address with news stands at its head, every other cursor where it was. */
  lemma {:induction false} MovedSays(cursors: map<Address, nat>, heads: map<Address, nat>, moved: seq<Address>, a: Address)
    ensures var after := Moved(cursors, heads, moved);
            && (a in moved && a in heads ==> a in after && after[a] == heads[a])
            && (!(a in moved && a in heads) ==> (a in after <==> a in cursors) && (a in cursors ==> after[a] == cursors[a]))
  {
  }

  /**
   * A failed round moves no cursor - unless the database fails while the cursors are
   * being moved: then exactly the addresses before the failing one have moved, and none
   * has exactly when none of those had anything new.
   */
  lemma {:induction false} FailedRoundMovesNoneIff(cursors: map<Address, nat>, addresses: seq<Address>,
                                                   heads: map<Address, nat>, fails: Address -> bool)
    requires forall a :: a in heads && a in cursors ==> cursors[a] < heads[a]
    ensures var k := Stops(addresses, heads, fails);
            Moved(cursors, heads, addresses[..k]) == cursors <==> forall i :: 0 <= i < k ==> addresses[i] !in heads
  {
    var k := Stops(addresses, heads, fails);
    var after := Moved(cursors, heads, addresses[..k]);
    if i :| 0 <= i < k && addresses[i] in heads {
      assert addresses[..k][i] == addresses[i];
      assert addresses[i] in after && after[addresses[i]] == heads[addresses[i]];
    }
  }

  /** Two addresses, and the second cursor's write fails: the first has moved. */
  lemma {:induction false} FailedRoundCanMoveCursors()
    ensures var fails := (a: Address) => a == "b";
            var heads := map["a" := 5, "b" := 7];
            var k := Stops(["a", "b"], heads, fails);
            k == 1 && Moved(map["a" := 1, "b" := 1], heads, ["a", "b"][..k]) == map["a" := 5, "b" := 1]
  {
    var addresses := ["a", "b"];
    assert addresses[1..] == ["b"] && addresses[..1] == ["a"];
    assert "a" != "b" by { assert "a"[0] != "b"[0]; }
  }

  datatype Ended = Failed | FailedAdvancing | Completed

  class WalletPoller {
    const history: seq<Tx>
    var db: Db

    constructor (history: seq<Tx>, db: Db)
      requires Sound(history, db) && InChainOrder(history)
      ensures this.history == history && this.db == db
    {
      this.history := history;
      this.db := db;
    }

    ghost predicate Valid()
      reads this
    {
      InChainOrder(history) && Sound(history, db)
    }

    /** One request: the next page of the listing, older than `before`. */
    method ReadPage(a: Address, after: int, head: nat, before: Option<nat>, ghost read: nat) returns (batch: seq<nat>)
      requires head <= |history| && read <= |Listing(history, a, after, head)|
      requires if read == 0 then before.None? else before == Some(Listing(history, a, after, head)[read - 1])
      ensures Within(batch, |history|) && |batch| <= PAGE
      ensures var all := Listing(history, a, after, head);
              && read + |batch| <= |all| && batch == all[read..read + |batch|]
              && (|batch| < PAGE ==> read + |batch| == |all|)
    {
      hide NewestFirst, Listing, Within;
      if read > 0 { ListingBefore(history, a, after, head, read - 1); }
      var listed := Listing(history, a, after, if before.Some? then before.value else head);
      batch := if |listed| > PAGE then listed[..PAGE] else listed;
      WithinPart(listed, if before.Some? then before.value else head, |history|, |batch|);
      assert listed[..|batch|] == batch;
    }

    /**
     * Everything after `from` at one address, newest first, back to the cut: what is
     * missing is older than something before the cut, or named as lost - and only what
     * lies behind ten full pages is.
     */
    method Collect(a: Address, from: Option<nat>, head: nat, cut: Option<int>, fails: (Address, nat) -> bool)
      returns (ok: bool, items: seq<nat>, lost: set<nat>)
      requires head <= |history|
      ensures ok ==> Covers(history, a, from, head, cut, items, lost)
      ensures ok ==> Within(items, |history|) && NamesOnlyLost(history, a, cut, items, lost)
      ensures !ok ==> lost == {} && exists page :: fails(a, page)
    {
      hide NewestFirst, Kept, Covers, BeforeCut, Listing, Within, NewerThan, Old, NoneOld, NamesOnlyLost;
      var after := After(from);
      ghost var all := Listing(history, a, after, head);
      WithinPart(all, head, |history|, |all|);
      assert all[..|all|] == all;
      NoneOldYet(history, all, cut);
      items, lost := [], {};
      var before: Option<nat> := None;
      var page := 0;
      while page < MAX_PAGES
        invariant 0 <= page <= MAX_PAGES
        invariant page * PAGE <= |all| && items == all[..page * PAGE]
        invariant page == 0 ==> before == None
        invariant page > 0 ==> before == Some(all[page * PAGE - 1])
        invariant NoneOld(history, all, page * PAGE, cut)
      {
        if fails(a, page) { return false, [], {}; }
        ghost var read := page * PAGE;
        var batch := ReadPage(a, after, head, before, read);
        var kept := Kept(history, batch, cut);
        if |batch| < PAGE || |kept| < |batch| {
          LastPageCovers(history, a, from, head, cut, read, batch);
          LastPageKept(history, a, all, read, batch, cut);
          items := items + kept;
          return true, items, {};
        }
        FullPageNotOld(history, all, read, batch, cut);
        items := items + batch;
        before := Some(batch[|batch| - 1]);
        page := page + 1;
      }
      ok := true;
      ListingBefore(history, a, after, head, page * PAGE - 1);
      lost := set p | p in Listing(history, a, after, before.value);
      GapCovers(history, a, from, head, cut, page * PAGE);
      NoneOldSays(history, all, page * PAGE, cut);
      GapIsNamed(history, a, from, head, cut, page * PAGE);
    }

    /**
     * All addresses of a wallet: what is new at each, and where each one's head is. Only
     * what is out of reach at one of them is named as lost.
     */
    method CollectAll(r: Round)
      returns (ok: bool, found: set<nat>, heads: map<Address, nat>)
      requires Valid() && IsRound(history, r)
      modifies this
      ensures Valid() && db == old(db).(reported := db.reported) && old(db.reported) <= db.reported
      ensures forall p :: p in db.reported && p !in old(db.reported) ==> LostAt(history, r.addresses, p)
      ensures ok ==> heads.Keys <= Elements(r.addresses) && FoundAt(history, r.addresses, found)
      ensures ok ==> forall a :: a in r.addresses ==> ReadToHead(history, db, found, heads, a, r.startHead, r.env.cutOf(a))
      ensures ok ==> forall a :: a in r.addresses ==> NewestAt(history, r, db.cursors, heads, a)
      ensures !ok ==> exists a, page :: r.env.pageFails(a, page)
    {
      hide Sound, InChainOrder, NewestFirst, Done, NewerThan, ReadToHead, Covers, NamesOnlyLost, NewestAt, LostAt, FoundAt;
      NothingFound(history, r.addresses);
      found, heads := {}, map[];
      var i := 0;
      while i < |r.addresses|
        invariant 0 <= i <= |r.addresses|
        invariant Valid() && db == old(db).(reported := db.reported) && old(db.reported) <= db.reported
        invariant forall p :: p in db.reported && p !in old(db.reported) ==> LostAt(history, r.addresses, p)
        invariant heads.Keys <= Elements(r.addresses[..i]) && FoundAt(history, r.addresses, found)
        invariant forall a :: a in r.addresses[..i] ==>
                    ReadToHead(history, db, found, heads, a, r.startHead, r.env.cutOf(a))
        invariant forall a :: a in r.addresses[..i] ==> NewestAt(history, r, db.cursors, heads, a)
      {
        var a := r.addresses[i];
        assert a in r.addresses && a !in r.addresses[..i];
        var head := r.env.headOf(a);
        var from := if a in db.cursors then Some(db.cursors[a]) else None;
        var got, items, lost := Collect(a, from, head, if from.Some? then None else r.env.cutOf(a), r.env.pageFails);
        if !got { return false, {}, map[]; }
        ghost var before, wasFound, wasHeads := db, found, heads;
        found := found + Elements(items);
        if |items| > 0 { heads := heads[a := items[0]]; }
        MoreReportedIsSound(history, db, lost);
        db := db.(reported := db.reported + lost);
        ReadOneMore(history, before, db, wasFound, found, wasHeads, heads, r.addresses[..i], a,
                    r.startHead, head, r.env.cutOf, items, lost);
        MoreFound(history, r.addresses, a, wasFound, items, from, head,
                  if from.Some? then None else r.env.cutOf(a), lost);
        OneMoreHead(history, r, db.cursors, wasHeads, heads, r.addresses[..i], a, items, lost);
        assert r.addresses[..i + 1] == r.addresses[..i] + [a];
        i := i + 1;
      }
      assert r.addresses[..i] == r.addresses;
      ok := true;
    }

    /** What was found, oldest slot first, each once. */
    method Sorted(found: set<nat>) returns (order: seq<nat>)
      requires forall p :: p in found ==> p < |history|
      ensures BySlot(history, order) && Elements(order) == found && |order| == |found|
    {
      hide BySlot;
      order := [];
      NothingBySlot(history);
      var rest := found;
      while rest != {}
        invariant rest <= found && BySlot(history, order) && Elements(order) == found - rest
        invariant |order| == |found| - |rest|
      {
        var p :| p in rest;
        ghost var was := order;
        assert p !in Elements(was);
        order := Insert(history, p, order);
        assert Elements(order) == Elements(was) + {p};
        rest := rest - {p};
      }
    }

    /** Reads and stores what was found, oldest slot first, until one throws. */
    method StoreAll(found: set<nat>, outcomeOf: nat -> Outcome) returns (ok: bool, order: seq<nat>)
      requires Valid() && forall p :: p in found ==> p < |history|
      modifies this
      ensures Valid()
      ensures BySlot(history, order) && Elements(order) == found && |order| == |found|
      ensures (db, ok) == HandleAll(old(db), order, outcomeOf)
    {
      hide Sound, InChainOrder, BySlot, Elements, HandleAll;
      order := Sorted(found);
      var i := 0;
      assert order[0..] == order;
      while i < |order|
        invariant 0 <= i <= |order|
        invariant Valid()
        invariant HandleAll(old(db), order, outcomeOf) == HandleAll(db, order[i..], outcomeOf)
      {
        var p := order[i];
        assert order[i..][0] == p && order[i..][1..] == order[i + 1..];
        HandleFirst(db, order[i..], outcomeOf);
        StoredIsSound(history, db, p);
        MoreReportedIsSound(history, db, {p});
        match outcomeOf(p) {
          case Stored => db := db.(stored := db.stored + {p});
          case GivenUp => db := db.(reported := db.reported + {p});
          case ReadThrows => return false, order;
          case Aborted => return false, order;
          case SinkThrows(committed) =>
            if committed { db := db.(stored := db.stored + {p}); }
            return false, order;
        }
        i := i + 1;
      }
      HandleNone(db, order[i..], outcomeOf);
      return true, order;
    }

    /** The cursor upsert: an insert, or an update unless that goes back in slots. */
    method Advance(a: Address, to: nat, cut: Option<int>)
      requires Valid() && to < |history|
      requires a in db.cursors ==> db.cursors[a] <= to
      requires forall p: nat :: p <= to && a in history[p].touches && (a in db.cursors ==> p > db.cursors[a])
                 ==> p in db.stored || p in db.reported || (a !in db.cursors && BeforeCut(history, a, p, cut))
      modifies this
      ensures Valid()
      ensures db == old(db).(cursors := old(db).cursors[a := to], cuts := db.cuts)
      ensures db.cuts == if a in old(db).cursors then old(db).cuts else old(db).cuts[a := cut]
    {
      if a in db.cursors && history[db.cursors[a]].slot > history[to].slot { return; }
      db := db.(cursors := db.cursors[a := to], cuts := if a in db.cursors then db.cuts else db.cuts[a := cut]);
    }

    /** The last loop of `pollWallet`: the cursors of exactly the addresses before the failing one move to their heads. */
    method AdvanceAll(r: Round, found: set<nat>, heads: map<Address, nat>, ghost seen: Db)
      returns (ok: bool)
      requires Valid() && IsRound(history, r)
      requires db == seen.(stored := db.stored, reported := db.reported) && seen.reported <= db.reported
      requires forall p :: p in found ==> p in db.stored || p in db.reported
      requires forall a :: a in r.addresses ==> ReadToHead(history, seen, found, heads, a, r.startHead, r.env.cutOf(a))
      requires heads.Keys <= Elements(r.addresses)
      modifies this
      ensures Valid() && db == old(db).(cursors := db.cursors, cuts := db.cuts)
      ensures var k := Stops(r.addresses, heads, r.env.advanceFails);
              && db.cursors == Moved(seen.cursors, heads, r.addresses[..k])
              && (ok <==> k == |r.addresses|)
      ensures CutsFollow(seen.cuts, db.cuts, r.env.cutOf)
    {
      hide Sound, InChainOrder, Stops, BeforeCut, IsRound, Elements, Moved, ReadToHead, CutsFollow;
      ghost var k := Stops(r.addresses, heads, r.env.advanceFails);
      NothingMoved(seen.cursors, heads, r.addresses[..0]);
      CutsMatch(history, db);
      NoCutsYet(seen.cuts, r.env.cutOf);
      DistinctAddresses(history, r);
      var i := 0;
      while i < |r.addresses|
        invariant 0 <= i <= k <= |r.addresses|
        invariant Valid() && db == old(db).(cursors := db.cursors, cuts := db.cuts)
        invariant db.cursors == Moved(seen.cursors, heads, r.addresses[..i])
        invariant CutsFollow(seen.cuts, db.cuts, r.env.cutOf)
      {
        var a := r.addresses[i];
        MovedOneMore(seen.cursors, heads, r.addresses, i);
        if a in heads {
          if r.env.advanceFails(a) { return false; }
          assert ReadToHead(history, seen, found, heads, a, r.startHead, r.env.cutOf(a));
          NotMovedYet(seen.cursors, heads, r.addresses[..i], a);
          ReadyToAdvance(history, seen, db, found, heads, a, r.startHead, r.env.cutOf(a));
          CutsMatch(history, db);
          OneMoreCut(seen.cuts, db.cuts, r.env.cutOf, a);
          Advance(a, heads[a], r.env.cutOf(a));
        }
        i := i + 1;
      }
      return true;
    }

    /**
     * One wallet to the head. Cursors move only once everything found is handled; if the
     * database fails among them, exactly those before the failing one have moved.
     * `synced_at` moves only after all of them. `order` is what was found, as handled, and
     * `collected` the database once the wallet's addresses were read.
     */
    method PollWallet(r: Round) returns (ended: Ended, order: seq<nat>, heads: map<Address, nat>, ghost collected: Db)
      requires Valid() && IsRound(history, r)
      modifies this
      ensures Valid()
      // reading the addresses only names what is out of reach as lost
      ensures collected == old(db).(reported := collected.reported) && old(db.reported) <= collected.reported
      ensures forall p :: p in collected.reported && p !in old(db.reported) ==> LostAt(history, r.addresses, p)
      // then what was found is handled one by one, oldest slot first, until one throws
      ensures BySlot(history, order) && FoundAt(history, r.addresses, Elements(order))
      ensures var after := HandleAll(collected, order, r.env.outcomeOf).0;
              db == after.(cursors := db.cursors, cuts := db.cuts, synced := db.synced)
      ensures ended != Failed ==> HandleAll(collected, order, r.env.outcomeOf).1
      ensures ended == Failed ==>
                !HandleAll(collected, order, r.env.outcomeOf).1 || exists a, page :: r.env.pageFails(a, page)
      ensures old(db.stored) <= db.stored && old(db.reported) <= db.reported && Justified(history, r, old(db), db)
      // a round that fails before everything found is handled moves nothing
      ensures ended == Failed ==> db.cursors == old(db.cursors) && db.cuts == old(db.cuts) && db.synced == old(db.synced)
      ensures ended != Failed ==>
                var k := Stops(r.addresses, heads, r.env.advanceFails);
                && (forall p :: p in order ==> p in db.stored || p in db.reported)
                && db.cursors == Moved(old(db.cursors), heads, r.addresses[..k])
                && (forall a :: a in r.addresses ==> NewestAt(history, r, old(db.cursors), heads, a))
                && (ended == Completed <==> k == |r.addresses| && !r.env.syncFails)
      // the cut that excuses a transaction is the one of the address's first read
      ensures CutsFollow(old(db.cuts), db.cuts, r.env.cutOf)
      // `synced_at` moves only when every address was read to the head the round started at
      ensures ended != Completed ==> db.synced == old(db.synced)
      ensures ended == Completed ==>
                && db.synced == old(db.synced)[r.owner := Later(old(db.synced), r.owner, r.startedAt)]
                && forall a, p: nat :: a in r.addresses && p < r.startHead && a in history[p].touches ==>
                     Done(history, db, a, p, if a in db.cuts then db.cuts[a] else r.env.cutOf(a))
      // and when nothing fails it does
      ensures Calm(r.env) ==> ended == Completed
    {
      hide Sound, InChainOrder, Stops, HandleAll, LostAt, BySlot, IsRound, ReadToHead, FoundAt, Done, Moved, Distinct;
      order, heads, collected := [], map[], db;
      ghost var before := db;
      NothingBySlot(history);
      var ok, found;
      ok, found, heads := CollectAll(r);
      collected := db;
      if !ok {
        assert Justified(history, r, before, db);
        HandleNone(collected, [], r.env.outcomeOf);
        NothingFound(history, r.addresses);
        assert Elements<nat>([]) == {};
        return Failed, [], map[], collected;
      }
      FoundSays(history, r.addresses, found);
      ok, order := StoreAll(found, r.env.outcomeOf);
      HandleAllIs(collected, order, r.env.outcomeOf);
      assert forall p :: p in order <==> p in Elements(order);
      assert Justified(history, r, before, db);
      if !ok { return Failed, order, heads, collected; }
      CutsMatch(history, collected);
      ok := AdvanceAll(r, found, heads, collected);
      if !ok { return FailedAdvancing, order, heads, collected; }
      ReadToStart(history, r, collected, db, found, heads);
      if r.env.syncFails { return FailedAdvancing, order, heads, collected; }
      ghost var advanced := db;
      SyncedIsSound(history, db, db.synced[r.owner := Later(db.synced, r.owner, r.startedAt)]);
      db := db.(synced := db.synced[r.owner := Later(db.synced, r.owner, r.startedAt)]);
      SameDone(history, advanced, db);
      return Completed, order, heads, collected;
    }

    /**
     * Any number of rounds, over any wallets, whatever fails in each: cursors stay sound
     * and never go back, each with the cut of the round that first moved it; and whatever
     * was stored or reported, some round's own transactions and failures account for it.
     * A round in which nothing failed has caught up, and stays so.
     */
    method Poll(rounds: seq<Round>)
      requires Valid() && forall i :: 0 <= i < |rounds| ==> IsRound(history, rounds[i])
      modifies this
      ensures Valid()
      ensures forall a :: a in old(db.cursors) ==> a in db.cursors && old(db.cursors[a]) <= db.cursors[a]
      ensures Explained(history, old(db), rounds, |rounds|, db)
      ensures forall i :: 0 <= i < |rounds| && Calm(rounds[i].env) ==> CaughtUp(history, old(db.cuts), rounds[..i + 1], db)
    {
      hide Sound, InChainOrder, Explained, Justified, CutsFollow, IsRound, Stops, CaughtUp, Moved, Calm, NewestAt, Done;
      NothingToExplain(history, db, rounds);
      for i := 0 to |rounds|
        invariant Valid()
        invariant forall a :: a in old(db.cursors) ==> a in db.cursors && old(db.cursors[a]) <= db.cursors[a]
        invariant Explained(history, old(db), rounds, i, db)
        invariant forall k :: 0 <= k < i && Calm(rounds[k].env) ==> CaughtUp(history, old(db.cuts), rounds[..k + 1], db)
      {
        ghost var before := db;
        var ended, order, heads, collected := PollWallet(rounds[i]);
        if ended != Failed {
          NoCursorGoesBack(history, rounds[i], before.cursors, heads, Stops(rounds[i].addresses, heads, rounds[i].env.advanceFails));
        }
        assert forall a :: a in before.cursors ==> a in db.cursors && before.cursors[a] <= db.cursors[a];
        ExplainedByOneMore(history, old(db), before, rounds, i, db);
        forall k | 0 <= k < i && Calm(rounds[k].env) ensures CaughtUp(history, old(db.cuts), rounds[..k + 1], db) {
          CaughtUpStays(history, old(db.cuts), rounds[..k + 1], before, db);
        }
        if ended == Completed { CompletedCatchesUp(history, old(db), rounds, i, db); }
      }
    }
  }

  /**
   * Everything of the last round's wallet before it started is done, or before the cut
   * one of its addresses was first read with; and `synced_at` says so.
   */
  ghost predicate CaughtUp(history: seq<Tx>, cuts: map<Address, Option<int>>, rounds: seq<Round>, db: Db)
    requires rounds != []
  {
    var r := rounds[|rounds| - 1];
    && r.owner in db.synced && db.synced[r.owner] >= r.startedAt
    && forall a, p: nat :: a in r.addresses && p < r.startHead && p < |history| && a in history[p].touches ==>
         || p in db.stored || p in db.reported
         || (a in cuts && BeforeCut(history, a, p, cuts[a]))
         || exists k :: 0 <= k < |rounds| && BeforeCut(history, a, p, rounds[k].env.cutOf(a))
  }

  lemma {:induction false} CaughtUpStays(history: seq<Tx>, cuts: map<Address, Option<int>>, rounds: seq<Round>, before: Db, db: Db)
    requires rounds != [] && CaughtUp(history, cuts, rounds, before)
    requires before.stored <= db.stored && before.reported <= db.reported
    requires forall o :: o in before.synced ==> o in db.synced && before.synced[o] <= db.synced[o]
    ensures CaughtUp(history, cuts, rounds, db)
  {
    hide BeforeCut;
  }

  /**
   * The first `n` rounds explain what changed: each new cut is one of theirs, old cuts stay,
   * and what was stored or reported some round's own transactions and failures account for.
   */
  ghost predicate Explained(history: seq<Tx>, before: Db, rounds: seq<Round>, n: nat, db: Db)
    requires n <= |rounds|
  {
    && (forall a :: a in before.cuts ==> a in db.cuts && db.cuts[a] == before.cuts[a])
    && (forall a :: a in db.cuts && a !in before.cuts ==> exists i :: 0 <= i < n && db.cuts[a] == rounds[i].env.cutOf(a))
    && (forall p :: p in db.stored && p !in before.stored ==> exists i :: 0 <= i < n && StoredBy(history, rounds[i], p))
    && (forall p :: p in db.reported && p !in before.reported ==> exists i :: 0 <= i < n && ReportedBy(history, rounds[i], p))
  }

  lemma {:induction false} NothingToExplain(history: seq<Tx>, db: Db, rounds: seq<Round>)
    ensures Explained(history, db, rounds, 0, db)
  {
  }

  lemma {:induction false} ExplainedByOneMore(history: seq<Tx>, before: Db, mid: Db, rounds: seq<Round>, n: nat, db: Db)
    requires n < |rounds| && Explained(history, before, rounds, n, mid)
    requires Justified(history, rounds[n], mid, db) && CutsFollow(mid.cuts, db.cuts, rounds[n].env.cutOf)
    ensures Explained(history, before, rounds, n + 1, db)
  {
    hide StoredBy, ReportedBy;
  }

  lemma {:induction false} CompletedCatchesUp(history: seq<Tx>, before: Db, rounds: seq<Round>, i: nat, db: Db)
    requires i < |rounds| && Explained(history, before, rounds, i + 1, db)
    requires var r := rounds[i];
             && r.owner in db.synced && db.synced[r.owner] >= r.startedAt
             && forall a, p: nat :: a in r.addresses && p < r.startHead && p < |history| && a in history[p].touches ==>
                  Done(history, db, a, p, if a in db.cuts then db.cuts[a] else r.env.cutOf(a))
    ensures CaughtUp(history, before.cuts, rounds[..i + 1], db)
  {
    hide BeforeCut, StoredBy, ReportedBy;
    var r, upTo, cuts := rounds[i], rounds[..i + 1], before.cuts;
    assert upTo[i] == r;
    forall a, p: nat | a in r.addresses && p < r.startHead && p < |history| && a in history[p].touches
      ensures || p in db.stored || p in db.reported
              || (a in cuts && BeforeCut(history, a, p, cuts[a]))
              || exists k :: 0 <= k < |upTo| && BeforeCut(history, a, p, upTo[k].env.cutOf(a))
    {
      if a in db.cuts && !(a in cuts && db.cuts[a] == cuts[a]) {
        var k :| 0 <= k <= i && db.cuts[a] == rounds[k].env.cutOf(a);
        assert upTo[k].env.cutOf(a) == db.cuts[a];
      } else if a !in db.cuts {
        assert upTo[i].env.cutOf(a) == r.env.cutOf(a);
      }
    }
  }

  ghost predicate LostAt(history: seq<Tx>, addresses: seq<Address>, p: nat) {
    exists a :: a in addresses && OutOfReach(history, a, p)
  }

  /** `p` is a transaction of the wallet that this round's handling commits. */
  ghost predicate StoredBy(history: seq<Tx>, r: Round, p: nat) {
    && p < |history| && (exists a :: a in r.addresses && a in history[p].touches)
    && (r.env.outcomeOf(p).Stored? || r.env.outcomeOf(p) == SinkThrows(true))
  }

  /** `p` is given up in this round, or out of reach at one of its addresses. */
  ghost predicate ReportedBy(history: seq<Tx>, r: Round, p: nat) {
    || (p < |history| && (exists a :: a in r.addresses && a in history[p].touches) && r.env.outcomeOf(p).GivenUp?)
    || LostAt(history, r.addresses, p)
  }

  ghost predicate Justified(history: seq<Tx>, r: Round, before: Db, after: Db) {
    && (forall p :: p in after.stored && p !in before.stored ==> StoredBy(history, r, p))
    && (forall p :: p in after.reported && p !in before.reported ==> ReportedBy(history, r, p))
  }

  /** Cuts are set once, by the round that first moves the address's cursor. */
  ghost predicate CutsFollow(before: map<Address, Option<int>>, after: map<Address, Option<int>>, cutOf: Address -> Option<int>) {
    && (forall a :: a in before ==> a in after && after[a] == before[a])
    && (forall a :: a in after && a !in before ==> after[a] == cutOf(a))
  }

  ghost predicate FoundAt(history: seq<Tx>, addresses: seq<Address>, found: set<nat>) {
    forall p :: p in found ==> p < |history| && exists a :: a in addresses && a in history[p].touches
  }

  /** The head found at `a` is its newest new transaction, but for what is before the cut of a first read. */
  ghost predicate NewestAt(history: seq<Tx>, r: Round, cursors: map<Address, nat>, heads: map<Address, nat>, a: Address) {
    && (a in heads ==>
          && heads[a] < |history| && heads[a] < r.env.headOf(a) && a in history[heads[a]].touches
          && (a in cursors ==> cursors[a] < heads[a]))
    && forall p: nat :: p < |history| && p < r.env.headOf(a) && a in history[p].touches && (a in cursors ==> p > cursors[a])
         ==> (a in heads && p <= heads[a]) || (a !in cursors && BeforeCut(history, a, p, r.env.cutOf(a)))
  }

  // ---------------------------------------------------------------- steps of the loops

  ghost predicate NoneOld(history: seq<Tx>, all: seq<nat>, n: nat, cut: Option<int>)
    requires n <= |all| && Within(all, |history|)
  {
    forall j :: 0 <= j < n ==> !Old(history[all[j]], cut)
  }

  lemma {:induction false} NoneOldSays(history: seq<Tx>, all: seq<nat>, n: nat, cut: Option<int>)
    requires n <= |all| && Within(all, |history|) && NoneOld(history, all, n, cut)
    ensures forall j :: 0 <= j < n ==> !Old(history[all[j]], cut)
  {
  }

  lemma {:induction false} FullPageNotOld(history: seq<Tx>, all: seq<nat>, read: nat, batch: seq<nat>, cut: Option<int>)
    requires Within(all, |history|) && Within(batch, |history|) && read + |batch| <= |all|
    requires batch == all[read..read + |batch|] && |Kept(history, batch, cut)| == |batch|
    requires NoneOld(history, all, read, cut)
    ensures NoneOld(history, all, read + |batch|, cut)
  {
    KeptWhole(history, batch, cut);
    forall j | 0 <= j < read + |batch| ensures !Old(history[all[j]], cut) {
      if j >= read { assert batch[j - read] == all[j]; }
    }
  }

  lemma {:induction false} NoneOldYet(history: seq<Tx>, all: seq<nat>, cut: Option<int>)
    requires Within(all, |history|)
    ensures NoneOld(history, all, 0, cut)
  {
  }

  lemma {:induction false} LastPageKept(history: seq<Tx>, a: Address, all: seq<nat>, read: nat, batch: seq<nat>, cut: Option<int>)
    requires Within(all, |history|) && Within(batch, |history|) && read <= |all| && NoneOld(history, all, read, cut)
    ensures var items := all[..read] + Kept(history, batch, cut);
            Within(items, |history|) && NamesOnlyLost(history, a, cut, items, {})
  {
    KeptAreNotOld(history, batch, cut);
  }

  lemma {:induction false} MoreReportedIsSound(history: seq<Tx>, db: Db, lost: set<nat>)
    requires Sound(history, db)
    ensures Sound(history, db.(reported := db.reported + lost))
  {
    forall a, p: nat | a in db.cursors && p <= db.cursors[a] && a in history[p].touches
      ensures Done(history, db.(reported := db.reported + lost), a, p, db.cuts[a])
    {
      assert Done(history, db, a, p, db.cuts[a]);
    }
  }

  lemma {:induction false} SyncedIsSound(history: seq<Tx>, db: Db, synced: map<Address, int>)
    requires Sound(history, db)
    ensures Sound(history, db.(synced := synced))
  {
    forall a, p: nat | a in db.cursors && p <= db.cursors[a] && a in history[p].touches
      ensures Done(history, db.(synced := synced), a, p, db.cuts[a])
    {
      assert Done(history, db, a, p, db.cuts[a]);
    }
  }

  lemma {:induction false} CursorsAreSound(history: seq<Tx>, db: Db, a: Address, p: nat)
    requires Sound(history, db)
    ensures db.cuts.Keys == db.cursors.Keys
    ensures a in db.cursors && p <= db.cursors[a] && p < |history| && a in history[p].touches ==>
              Done(history, db, a, p, db.cuts[a])
  {
  }

  lemma {:induction false} CutsMatch(history: seq<Tx>, db: Db)
    requires Sound(history, db)
    ensures db.cuts.Keys == db.cursors.Keys
  {
  }

  lemma {:induction false} StoredIsSound(history: seq<Tx>, db: Db, p: nat)
    requires Sound(history, db)
    ensures Sound(history, db.(stored := db.stored + {p}))
  {
    forall a, q: nat | a in db.cursors && q <= db.cursors[a] && a in history[q].touches
      ensures Done(history, db.(stored := db.stored + {p}), a, q, db.cuts[a])
    {
      assert Done(history, db, a, q, db.cuts[a]);
    }
  }

  lemma {:induction false} ReadyToAdvance(history: seq<Tx>, seen: Db, db: Db, found: set<nat>, heads: map<Address, nat>,
                                          a: Address, startHead: nat, cut: Option<int>)
    requires ReadToHead(history, seen, found, heads, a, startHead, cut) && a in heads
    requires seen.reported <= db.reported && forall p :: p in found ==> p in db.stored || p in db.reported
    requires a in db.cursors <==> a in seen.cursors
    requires a in db.cursors ==> db.cursors[a] == seen.cursors[a]
    ensures heads[a] < |history| && (a in db.cursors ==> db.cursors[a] < heads[a])
    ensures forall p: nat :: p <= heads[a] && a in history[p].touches && (a in db.cursors ==> p > db.cursors[a])
              ==> p in db.stored || p in db.reported || (a !in db.cursors && BeforeCut(history, a, p, cut))
  {
    hide BeforeCut;
  }

  lemma {:induction false} NotMovedYet(cursors: map<Address, nat>, heads: map<Address, nat>, moved: seq<Address>, a: Address)
    requires a !in moved
    ensures var after := Moved(cursors, heads, moved);
            (a in after <==> a in cursors) && (a in cursors ==> after[a] == cursors[a])
  {
  }

  lemma {:induction false} NoCutsYet(cuts: map<Address, Option<int>>, cutOf: Address -> Option<int>)
    ensures CutsFollow(cuts, cuts, cutOf)
  {
  }

  lemma {:induction false} OneMoreCut(before: map<Address, Option<int>>, after: map<Address, Option<int>>,
                                      cutOf: Address -> Option<int>, a: Address)
    requires CutsFollow(before, after, cutOf)
    ensures a !in after ==> CutsFollow(before, after[a := cutOf(a)], cutOf)
  {
  }

  lemma {:induction false} NothingMoved(cursors: map<Address, nat>, heads: map<Address, nat>, moved: seq<Address>)
    requires moved == []
    ensures Moved(cursors, heads, moved) == cursors
  {
  }

  lemma {:induction false} DistinctAddresses(history: seq<Tx>, r: Round)
    requires IsRound(history, r)
    ensures forall i :: 0 <= i < |r.addresses| ==> r.addresses[i] !in r.addresses[..i]
  {
  }

  lemma {:induction false} MovedOneMore(cursors: map<Address, nat>, heads: map<Address, nat>, addresses: seq<Address>, i: nat)
    requires i < |addresses|
    ensures var a := addresses[i];
            Moved(cursors, heads, addresses[..i + 1])
            == if a in heads then Moved(cursors, heads, addresses[..i])[a := heads[a]] else Moved(cursors, heads, addresses[..i])
  {
    assert addresses[..i + 1] == addresses[..i] + [addresses[i]];
  }

  lemma {:induction false} NothingBySlot(history: seq<Tx>)
    ensures BySlot(history, [])
  {
  }

  lemma {:induction false} FoundSays(history: seq<Tx>, addresses: seq<Address>, found: set<nat>)
    requires FoundAt(history, addresses, found)
    ensures forall p :: p in found ==> p < |history| && exists a :: a in addresses && a in history[p].touches
  {
  }

  lemma {:induction false} NoCursorGoesBack(history: seq<Tx>, r: Round, cursors: map<Address, nat>, heads: map<Address, nat>, k: nat)
    requires k <= |r.addresses| && forall a :: a in r.addresses ==> NewestAt(history, r, cursors, heads, a)
    ensures var after := Moved(cursors, heads, r.addresses[..k]);
            forall a :: a in cursors ==> a in after && cursors[a] <= after[a]
  {
    hide BeforeCut;
    forall a | a in cursors && a in r.addresses[..k] && a in heads ensures cursors[a] <= heads[a] {
      assert a in r.addresses && NewestAt(history, r, cursors, heads, a);
    }
  }

  lemma {:induction false} NothingFound(history: seq<Tx>, addresses: seq<Address>)
    ensures FoundAt(history, addresses, {})
  {
  }

  lemma {:induction false} OneMoreHead(history: seq<Tx>, r: Round, cursors: map<Address, nat>, before: map<Address, nat>,
                                       heads: map<Address, nat>, done: seq<Address>, a: Address, items: seq<nat>, lost: set<nat>)
    requires r.env.headOf(a) <= |history| && a !in done && a !in before
    requires forall b :: b in done ==> NewestAt(history, r, cursors, before, b)
    requires var cut := if a in cursors then None else r.env.cutOf(a);
             && Covers(history, a, if a in cursors then Some(cursors[a]) else None, r.env.headOf(a), cut, items, lost)
             && Within(items, |history|) && NamesOnlyLost(history, a, cut, items, lost)
    requires heads == if |items| > 0 then before[a := items[0]] else before
    ensures forall b :: b in done + [a] ==> NewestAt(history, r, cursors, heads, b)
  {
    forall b | b in done ensures NewestAt(history, r, cursors, heads, b) {
      assert NewestAt(history, r, cursors, before, b);
    }
    assert forall p: nat :: !BeforeCut(history, a, p, None);
    hide BeforeCut;
    forall p | p in lost ensures |items| > 0 && p < items[0] { assert NewerThan(history, a, p, items); }
    forall p | p in items ensures p <= items[0] {
      var j :| 0 <= j < |items| && items[j] == p;
    }
    forall p: nat | p < r.env.headOf(a) && a in history[p].touches && (a in cursors ==> p > cursors[a])
      ensures (a in heads && p <= heads[a]) || (a !in cursors && BeforeCut(history, a, p, r.env.cutOf(a)))
    {
      assert p in items || p in lost || BeforeCut(history, a, p, if a in cursors then None else r.env.cutOf(a));
    }
    if |items| > 0 { assert items[0] in items; }
    assert NewestAt(history, r, cursors, heads, a);
  }

  /** Once all cursors moved, everything of the wallet before the round's start is done. */
  lemma {:induction false} ReadToStart(history: seq<Tx>, r: Round, seen: Db, db: Db, found: set<nat>, heads: map<Address, nat>)
    requires Sound(history, db) && seen.reported <= db.reported && IsRound(history, r)
    requires forall p :: p in found ==> p in db.stored || p in db.reported
    requires forall a :: a in r.addresses ==> ReadToHead(history, seen, found, heads, a, r.startHead, r.env.cutOf(a))
    requires db.cursors == Moved(seen.cursors, heads, r.addresses[..|r.addresses|])
    requires CutsFollow(seen.cuts, db.cuts, r.env.cutOf) && seen.cuts.Keys == seen.cursors.Keys
    ensures forall a, p: nat :: a in r.addresses && p < r.startHead && a in history[p].touches ==>
              Done(history, db, a, p, if a in db.cuts then db.cuts[a] else r.env.cutOf(a))
  {
    hide BeforeCut, Sound;
    forall a, p: nat | a in r.addresses && p < r.startHead && a in history[p].touches
      ensures Done(history, db, a, p, if a in db.cuts then db.cuts[a] else r.env.cutOf(a))
    {
      assert ReadToHead(history, seen, found, heads, a, r.startHead, r.env.cutOf(a));
      CursorsAreSound(history, db, a, p);
    }
  }

  lemma {:induction false} SameDone(history: seq<Tx>, before: Db, after: Db)
    requires after == before.(synced := after.synced)
    ensures forall a, p, cut :: Done(history, before, a, p, cut) ==> Done(history, after, a, p, cut)
  {
  }

  lemma {:induction false} MoreFound(history: seq<Tx>, addresses: seq<Address>, a: Address, found: set<nat>, items: seq<nat>,
                                     from: Option<nat>, head: nat, cut: Option<int>, lost: set<nat>)
    requires a in addresses && FoundAt(history, addresses, found) && head <= |history|
    requires Covers(history, a, from, head, cut, items, lost)
    requires Within(items, |history|) && NamesOnlyLost(history, a, cut, items, lost)
    ensures FoundAt(history, addresses, found + Elements(items))
    ensures forall p :: p in lost ==> LostAt(history, addresses, p)
  {
    hide BeforeCut, Old;
    forall p | p in lost ensures LostAt(history, addresses, p) {
      assert NewerThan(history, a, p, items);
      assert OutOfReach(history, a, p);
    }
  }

  /**
   * When every block time is known and they follow the chain, the first read leaves
   * out exactly the transactions older than the retention cut.
   */
  lemma {:induction false} CutIsExactWhenTimesAreKnown(history: seq<Tx>, a: Address, p: nat, cut: Option<int>)
    requires p < |history| && a in history[p].touches
    requires forall q :: 0 <= q < |history| ==> history[q].blockTime.Some?
    requires forall q, r :: 0 <= q <= r < |history| ==> history[q].blockTime.value <= history[r].blockTime.value
    ensures BeforeCut(history, a, p, cut) <==> cut.Some? && history[p].blockTime.value < cut.value
  {
    if BeforeCut(history, a, p, cut) {
      var q: nat :| p <= q < |history| && a in history[q].touches && Old(history[q], cut);
      assert history[p].blockTime.value <= history[q].blockTime.value;
    }
  }

  function Later(synced: map<Address, int>, owner: Address, at: int): (t: int)
    ensures at <= t && (owner in synced ==> synced[owner] <= t)
    ensures t == at || (owner in synced && t == synced[owner])
  {
    if owner in synced && synced[owner] >= at then synced[owner] else at
  }

  ghost predicate Distinct(s: seq<Address>) {
    forall i, j :: 0 <= i < j < |s| ==> s[i] != s[j]
  }

  function Elements<T>(s: seq<T>): set<T> {
    set x | x in s
  }

  /** Everything at `a` before `startHead`, and up to `a`'s head, is found, reported or before the cut. */
  ghost predicate ReadToHead(history: seq<Tx>, db: Db, found: set<nat>, heads: map<Address, nat>,
                             a: Address, startHead: nat, cut: Option<int>)
  {
    && (a in heads ==> heads[a] < |history| && (a in db.cursors ==> db.cursors[a] < heads[a]))
    && forall p: nat :: p < |history| && a in history[p].touches
         && (p < startHead || (a in heads && p <= heads[a]))
         && (a in db.cursors ==> p > db.cursors[a])
         ==> p in found || p in db.reported || (a !in db.cursors && BeforeCut(history, a, p, cut))
  }

  lemma {:induction false} ReadOneMore(history: seq<Tx>, db: Db, db': Db, found: set<nat>, found': set<nat>,
                    heads: map<Address, nat>, heads': map<Address, nat>,
                    done: seq<Address>, a: Address, startHead: nat, head: nat,
                    cutOf: Address -> Option<int>, items: seq<nat>, lost: set<nat>)
    requires startHead <= head <= |history|
    requires forall b :: b in done ==> ReadToHead(history, db, found, heads, b, startHead, cutOf(b))
    requires Covers(history, a, if a in db.cursors then Some(db.cursors[a]) else None, head,
                    if a in db.cursors then None else cutOf(a), items, lost)
    requires db' == db.(reported := db.reported + lost)
    requires found' == found + Elements(items)
    requires heads' == if |items| > 0 then heads[a := items[0]] else heads
    requires a !in done && a !in heads
    ensures forall b :: b in done + [a] ==> ReadToHead(history, db', found', heads', b, startHead, cutOf(b))
  {
    assert forall cutless: nat :: !BeforeCut(history, a, cutless, None);
    forall b | b in done ensures ReadToHead(history, db', found', heads', b, startHead, cutOf(b)) {
      assert ReadToHead(history, db, found, heads, b, startHead, cutOf(b));
    }
  }
}
