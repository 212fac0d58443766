/**
 * The feed of one permission, newest first, page after page from a store that other
 * processes keep writing to.
 */
module FeedPaging {
  import opened Shared

  /** Slot, then the place in the transaction; the row id only breaks ties. */
  datatype Key = Key(slot: nat, position: nat, id: nat)

  datatype Row = Row(key: Key, pda: string, created: bool, blockTime: int)

  /** What a request carries: nothing, something this feed never issued, or a position in it. */
  datatype Cursor = Absent | Malformed | After(key: Key)

  datatype Page = Page(tracked: bool, items: seq<Row>, next: Option<Key>, truncatedAt: Option<int>)

  datatype Error = InvalidCursor

  predicate Less(a: Key, b: Key) {
    || a.slot < b.slot
    || (a.slot == b.slot && (a.position < b.position || (a.position == b.position && a.id < b.id)))
  }

  /** The row id is the primary key. */
  ghost predicate Keyed(rows: set<Row>) {
    forall a, b :: a in rows && b in rows && a.key == b.key ==> a == b
  }

  /** No creation at this address is later: the row belongs to the current permission. */
  ghost predicate IsCurrent(rows: set<Row>, pda: string, r: Row) {
    forall c :: c in rows && c.pda == pda && c.created ==>
      c.key.slot < r.key.slot || (c.key.slot == r.key.slot && c.key.position <= r.key.position)
  }

  ghost function Candidates(rows: set<Row>, pda: string, after: Option<Key>): (left: set<Row>)
    ensures left <= rows && (Keyed(rows) ==> Keyed(left))
  {
    set r | r in rows && r.pda == pda && IsCurrent(rows, pda, r) && (after.None? || Less(r.key, after.value))
  }

  // ---------------------------------------------------------------- order by, descending

  lemma {:induction false} Transitive(a: Key, b: Key, c: Key)
    requires Less(a, b) && Less(b, c)
    ensures Less(a, c)
  {
  }

  lemma {:induction false} Total(a: Key, b: Key)
    ensures Less(a, b) || Less(b, a) || a == b
    ensures !(Less(a, b) && Less(b, a)) && !Less(a, a)
  {
  }

  lemma {:induction false} HasNewest(rows: set<Row>)
    requires rows != {} && Keyed(rows)
    ensures exists m :: IsNewest(rows, m)
    decreases |rows|
  {
    hide Less;
    var x :| x in rows;
    var rest := rows - {x};
    assert forall r :: r in rows && r != x ==> r in rest;
    if rest == {} {
      assert IsNewest(rows, x);
    } else {
      HasNewest(rest);
      var y :| IsNewest(rest, y);
      Total(x.key, y.key);
      assert y in rest && y in rows && x.key != y.key;
      var m := if Less(x.key, y.key) then y else x;
      forall r | r in rows && r != m ensures Less(r.key, m.key) {
        if r != x && r != y && m == x { Transitive(r.key, y.key, x.key); }
      }
      assert IsNewest(rows, m);
    }
  }

  ghost predicate IsNewest(rows: set<Row>, m: Row) {
    m in rows && forall r :: r in rows && r != m ==> Less(r.key, m.key)
  }

  ghost function Newest(rows: set<Row>): (m: Row)
    requires rows != {} && Keyed(rows)
    ensures IsNewest(rows, m)
  {
    HasNewest(rows);
    var m :| IsNewest(rows, m);
    m
  }

  ghost function Ordered(rows: set<Row>): (s: seq<Row>)
    requires Keyed(rows)
    ensures |s| == |rows|
    decreases |rows|
  {
    if rows == {} then [] else [Newest(rows)] + Ordered(rows - {Newest(rows)})
  }

  ghost predicate Descending(s: seq<Row>) {
    forall i, j :: 0 <= i < j < |s| ==> Less(s[j].key, s[i].key)
  }

  lemma {:induction false} OrderedIs(rows: set<Row>)
    requires Keyed(rows)
    ensures Descending(Ordered(rows)) && forall r :: r in rows <==> r in Ordered(rows)
    decreases |rows|
  {
    hide Less;
    if rows != {} {
      var m := Newest(rows);
      OrderedIs(rows - {m});
      forall r ensures r in rows <==> r in Ordered(rows) {
        assert r in rows <==> r == m || r in rows - {m};
      }
    }
  }

  ghost function Below(rows: set<Row>, key: Key): (below: set<Row>)
    ensures Keyed(rows) ==> Keyed(below)
  {
    set r | r in rows && Less(r.key, key)
  }

  lemma {:induction false} AfterFirst(m: Row, rest: seq<Row>, k: nat)
    requires 1 <= k <= |rest| + 1
    ensures ([m] + rest)[k - 1] == if k == 1 then m else rest[k - 2]
    ensures ([m] + rest)[k..] == rest[k - 1..]
  {
  }

  /** What is below the `k`-th row of the order is the rest of the order. */
  lemma {:induction false} RestIsBelow(rows: set<Row>, k: nat)
    requires Keyed(rows) && 1 <= k <= |rows|
    ensures Ordered(Below(rows, Ordered(rows)[k - 1].key)) == Ordered(rows)[k..]
    decreases k
  {
    hide Less, Descending, Below;
    var m := Newest(rows);
    var rest := rows - {m};
    var order := Ordered(rest);
    assert Ordered(rows) == [m] + order;
    AfterFirst(m, order, k);
    hide Ordered, Keyed;
    if k == 1 {
      BelowNewest(rows, m);
      assert order[0..] == order;
    } else {
      RestIsBelow(rest, k - 1);
      InOrdered(rest, k - 2);
      BelowOther(rows, m, order[k - 2]);
    }
  }

  lemma {:induction false} InOrdered(rows: set<Row>, i: nat)
    requires Keyed(rows) && i < |rows|
    ensures Ordered(rows)[i] in rows
  {
    OrderedIs(rows);
  }

  lemma {:induction false} BelowNewest(rows: set<Row>, m: Row)
    requires IsNewest(rows, m)
    ensures Below(rows, m.key) == rows - {m}
  {
    hide Less;
    Total(m.key, m.key);
  }

  lemma {:induction false} BelowOther(rows: set<Row>, m: Row, x: Row)
    requires IsNewest(rows, m) && x in rows - {m}
    ensures Below(rows, x.key) == Below(rows - {m}, x.key)
  {
    hide Less;
    Total(m.key, x.key);
  }

  // ---------------------------------------------------------------- one page

  ghost predicate HasCreation(rows: set<Row>, pda: string) {
    exists c :: c in rows && c.pda == pda && c.created
  }

  ghost function Oldest(rows: set<Row>): (t: Option<int>)
    ensures t.None? <==> rows == {}
    ensures t.Some? ==> (exists r :: r in rows && r.blockTime == t.value) && forall r :: r in rows ==> t.value <= r.blockTime
    decreases |rows|
  {
    if rows == {} then None
    else
      var x :| x in rows;
      var rest := Oldest(rows - {x});
      assert forall r :: r in rows ==> r == x || r in rows - {x};
      if rest.None? || x.blockTime <= rest.value then Some(x.blockTime) else rest
  }

  function Min(a: nat, b: nat): nat {
    if a < b then a else b
  }

  ghost function PageOf(rows: set<Row>, pda: string, after: Option<Key>, limit: nat): Page
    requires Keyed(rows)
  {
    var found := Ordered(Candidates(rows, pda, after));
    var fetched := found[..Min(|found|, limit + 1)];
    var shown := fetched[..Min(|fetched|, limit)];
    Page(true, shown,
         if |fetched| > limit && shown != [] then Some(shown[|shown| - 1].key) else None,
         if HasCreation(rows, pda) then None else Oldest(set r | r in rows && r.pda == pda))
  }

  /** A malformed cursor fails whatever the store holds; an untracked address has no feed. */
  ghost function ReadFeed(rows: set<Row>, tracked: set<string>, pda: string, cursor: Cursor, limit: nat): Result<Page, Error>
    requires Keyed(rows)
  {
    match cursor
    case Malformed => Err(InvalidCursor)
    case Absent => Ok(if pda in tracked then PageOf(rows, pda, None, limit) else Page(false, [], None, None))
    case After(key) => Ok(if pda in tracked then PageOf(rows, pda, Some(key), limit) else Page(false, [], None, None))
  }

  /** The rest of a descending order comes after every row of its first part. */
  lemma {:induction false} FirstAreNewest(found: seq<Row>, n: nat, r: Row, shown: Row)
    requires Descending(found) && n <= |found| && r in found && r !in found[..n] && shown in found[..n]
    ensures Less(r.key, shown.key)
  {
    hide Less;
    var j :| 0 <= j < |found| && found[j] == r;
    var i :| 0 <= i < n && found[..n][i] == shown;
    assert found[i] == shown;
    forall k | 0 <= k < n ensures found[k] != r { assert found[..n][k] in found[..n]; }
    assert j >= n;
  }

  lemma {:induction false} PageShows(rows: set<Row>, pda: string, after: Option<Key>, limit: nat)
    requires Keyed(rows)
    ensures var page, left := PageOf(rows, pda, after, limit), Candidates(rows, pda, after);
            && page.items == Ordered(left)[..Min(|left|, limit)]
            && (page.next.Some? <==> |left| > limit && limit > 0)
            && (page.next.Some? ==> page.next.value == page.items[|page.items| - 1].key)
  {
    hide Less, IsCurrent, HasCreation, Candidates;
  }

  /** A page is the newest `limit` of what is left, and offers more exactly when there is more. */
  lemma {:induction false} PageIsNewest(rows: set<Row>, pda: string, after: Option<Key>, limit: nat)
    requires Keyed(rows)
    ensures var page, left := PageOf(rows, pda, after, limit), Candidates(rows, pda, after);
            && Descending(page.items) && |page.items| == Min(|left|, limit)
            && (forall r :: r in page.items ==> r in left)
            && (forall r, shown :: r in left && r !in page.items && shown in page.items ==> Less(r.key, shown.key))
            && (page.next.Some? <==> |left| > limit && limit > 0)
            && (page.next.Some? ==> page.next.value == page.items[|page.items| - 1].key)
  {
    hide Less, Candidates, Ordered;
    var left := Candidates(rows, pda, after);
    OrderedIs(left);
    PageShows(rows, pda, after, limit);
    hide PageOf;
    var found, n := Ordered(left), Min(|left|, limit);
    forall r, s | r in left && r !in found[..n] && s in found[..n] ensures Less(r.key, s.key) {
      FirstAreNewest(found, n, r, s);
    }
  }

  /** The cut is named exactly when the store holds no creation, by its oldest stored row. */
  lemma {:induction false} TruncationIsNamed(rows: set<Row>, pda: string, after: Option<Key>, limit: nat)
    requires Keyed(rows)
    ensures var cut := PageOf(rows, pda, after, limit).truncatedAt;
            && (cut.Some? <==> (forall c :: c in rows && c.pda == pda ==> !c.created) && exists r :: r in rows && r.pda == pda)
            && (cut.Some? ==> forall r :: r in rows && r.pda == pda ==> cut.value <= r.blockTime && IsCurrent(rows, pda, r))
  {
    hide Less, Ordered;
    var own := set r | r in rows && r.pda == pda;
    if r :| r in rows && r.pda == pda { assert r in own; }
  }

  /** `a` comes strictly before `b` on the chain; the row id only breaks ties. */
  lemma {:induction false} OrderedBySlot(a: Key, b: Key)
    ensures a.slot < b.slot ==> Less(a, b)
    ensures a.slot == b.slot && a.position < b.position ==> Less(a, b)
    ensures a.slot == b.slot && a.position == b.position ==> (Less(a, b) <==> a.id < b.id)
    ensures Less(a, b) ==> a.slot <= b.slot && (a.slot == b.slot ==> a.position <= b.position)
  {
  }

  /**
   * A page in the chain's own terms: newest slot first, in a slot the latest position
   * first; all of this permission, below the cursor, and of no earlier permission at its
   * address - that is, with no later creation; and with room left, everything of that kind.
   */
  lemma {:induction false} PageInChainOrder(rows: set<Row>, pda: string, after: Option<Key>, limit: nat)
    requires Keyed(rows)
    ensures var items := PageOf(rows, pda, after, limit).items;
            && (forall i, j :: 0 <= i < j < |items| ==>
                  var a, b := items[i].key, items[j].key;
                  && b.slot <= a.slot && (b.slot == a.slot ==> b.position <= a.position)
                  && (b.slot == a.slot && b.position == a.position ==> b.id < a.id))
            && (forall r :: r in items ==> r in rows && Belongs(rows, pda, after, r))
            && (|items| < limit ==> forall r :: r in rows && Belongs(rows, pda, after, r) ==> r in items)
  {
    var page, left := PageOf(rows, pda, after, limit), Candidates(rows, pda, after);
    PageIsNewest(rows, pda, after, limit);
    CandidatesBelong(rows, pda, after);
    if |page.items| < limit {
      PageShows(rows, pda, after, limit);
      OrderedIs(left);
      assert Ordered(left)[..|left|] == Ordered(left);
    }
    hide Belongs, PageOf, Candidates, Less, Ordered, Keyed;
    forall i, j | 0 <= i < j < |page.items|
      ensures var a, b := page.items[i].key, page.items[j].key;
              && b.slot <= a.slot && (b.slot == a.slot ==> b.position <= a.position)
              && (b.slot == a.slot && b.position == a.position ==> b.id < a.id)
    {
      OrderedBySlot(page.items[j].key, page.items[i].key);
    }
  }

  lemma {:induction false} CandidatesBelong(rows: set<Row>, pda: string, after: Option<Key>)
    ensures forall r :: r in Candidates(rows, pda, after) <==> r in rows && Belongs(rows, pda, after, r)
  {
    forall r | r in rows ensures r in Candidates(rows, pda, after) <==> Belongs(rows, pda, after, r) {
      if after.Some? { OrderedBySlot(r.key, after.value); }
    }
  }

  /** The row is this permission's, below the cursor, and no creation at its address is later. */
  ghost predicate Belongs(rows: set<Row>, pda: string, after: Option<Key>, r: Row) {
    && r.pda == pda
    && (after.Some? ==>
          var k := after.value;
          && r.key.slot <= k.slot && (r.key.slot == k.slot ==> r.key.position <= k.position)
          && (r.key.slot == k.slot && r.key.position == k.position ==> r.key.id < k.id))
    && forall c :: c in rows && c.pda == pda && c.created ==>
         c.key.slot <= r.key.slot && (c.key.slot == r.key.slot ==> c.key.position <= r.key.position)
  }

  // ---------------------------------------------------------------- following the cursor

  ghost predicate AllKeyed(stores: seq<set<Row>>) {
    forall i :: 0 <= i < |stores| ==> Keyed(stores[i])
  }

  /** The pages read one after another, the `i`-th from the store as it is at that moment. */
  ghost function Walk(stores: seq<set<Row>>, pda: string, after: Option<Key>, limit: nat): seq<Row>
    requires AllKeyed(stores)
    decreases |stores|
  {
    if stores == [] then []
    else
      var page := PageOf(stores[0], pda, after, limit);
      page.items + if page.next.Some? then Walk(stores[1..], pda, page.next, limit) else []
  }

  /** The last of these pages offered no further one. */
  ghost predicate ReachesEnd(stores: seq<set<Row>>, pda: string, after: Option<Key>, limit: nat)
    requires AllKeyed(stores)
    decreases |stores|
  {
    stores != []
    && var next := PageOf(stores[0], pda, after, limit).next;
       if next.Some? then ReachesEnd(stores[1..], pda, next, limit) else |stores| == 1
  }

  /** Every stored row is of a tracked permission: the table's foreign key. */
  ghost predicate OfTracked(rows: set<Row>, tracked: set<string>) {
    forall r :: r in rows ==> r.pda in tracked
  }

  function AfterOf(cursor: Cursor): Option<Key> {
    if cursor.After? then Some(cursor.key) else None
  }

  /**
   * Only a malformed cursor fails, whatever the store holds. Every other answer is the
   * page, and an address without a permission differs from one without events by its
   * flag alone.
   */
  lemma {:induction false} ReadFeedIsThePage(rows: set<Row>, tracked: set<string>, pda: string, cursor: Cursor, limit: nat)
    requires Keyed(rows) && OfTracked(rows, tracked)
    ensures var read := ReadFeed(rows, tracked, pda, cursor, limit);
            && (read.Err? <==> cursor.Malformed?)
            && (read.Ok? ==>
                  && read.value == PageOf(rows, pda, AfterOf(cursor), limit).(tracked := pda in tracked)
                  && (pda !in tracked ==> read.value == Page(false, [], None, None)))
  {
    if pda !in tracked {
      assert Candidates(rows, pda, AfterOf(cursor)) == {};
      assert (set r | r in rows && r.pda == pda) == {};
    }
  }

  /** What a client gets that reads a page and then follows each page's cursor. */
  ghost function Follow(stores: seq<set<Row>>, tracked: seq<set<string>>, pda: string, cursor: Cursor, limit: nat): seq<Row>
    requires AllKeyed(stores) && |tracked| == |stores|
    decreases |stores|
  {
    if stores == [] then []
    else match ReadFeed(stores[0], tracked[0], pda, cursor, limit)
      case Err(_) => []
      case Ok(page) =>
        page.items + if page.next.Some? then Follow(stores[1..], tracked[1..], pda, After(page.next.value), limit) else []
  }

  /** A malformed cursor leads nowhere; from any other a client walks the pages below, tracked or not. */
  lemma {:induction false} FollowIsTheWalk(stores: seq<set<Row>>, tracked: seq<set<string>>, pda: string, cursor: Cursor, limit: nat)
    requires AllKeyed(stores) && |tracked| == |stores|
    requires forall i :: 0 <= i < |stores| ==> OfTracked(stores[i], tracked[i])
    ensures Follow(stores, tracked, pda, cursor, limit)
            == if cursor.Malformed? then [] else Walk(stores, pda, AfterOf(cursor), limit)
    decreases |stores|
  {
    hide PageOf, ReadFeed, OfTracked, Keyed;
    if stores != [] {
      ReadFeedIsThePage(stores[0], tracked[0], pda, cursor, limit);
      if !cursor.Malformed? {
        var next := PageOf(stores[0], pda, AfterOf(cursor), limit).next;
        if next.Some? { FollowIsTheWalk(stores[1..], tracked[1..], pda, After(next.value), limit); }
      }
    }
  }

  lemma {:induction false} PageThenBelow(page: seq<Row>, rest: seq<Row>, last: Key)
    requires Descending(page) && page != [] && last == page[|page| - 1].key
    requires Descending(rest) && forall r :: r in rest ==> Less(r.key, last)
    ensures Descending(page + rest)
  {
    hide Less;
    var all := page + rest;
    forall i, j | 0 <= i < j < |all| ensures Less(all[j].key, all[i].key) {
      if i < |page| <= j {
        assert all[j] in rest;
        if i < |page| - 1 { Transitive(all[j].key, last, all[i].key); }
      }
    }
  }

  ghost predicate ShownFrom(stores: seq<set<Row>>, pda: string, r: Row) {
    r.pda == pda && exists i :: 0 <= i < |stores| && r in stores[i] && IsCurrent(stores[i], pda, r)
  }

  /**
   * Whatever is written or deleted between pages, a walk never goes back and never
   * repeats: strictly newest to oldest, below where it started, and only rows that were
   * the current permission's when their page was read.
   */
  lemma {:induction false} WalkNeverRepeats(stores: seq<set<Row>>, pda: string, after: Option<Key>, limit: nat)
    requires AllKeyed(stores)
    ensures Descending(Walk(stores, pda, after, limit))
    ensures forall r :: r in Walk(stores, pda, after, limit) ==>
              ShownFrom(stores, pda, r) && (after.Some? ==> Less(r.key, after.value))
    decreases |stores|
  {
    hide Ordered, Keyed, PageOf, Less, IsCurrent;
    if stores != [] {
      var page := PageOf(stores[0], pda, after, limit);
      PageIsNewest(stores[0], pda, after, limit);
      forall r | r in page.items ensures ShownFrom(stores, pda, r) && (after.Some? ==> Less(r.key, after.value)) {
        assert r in stores[0];
      }
      if page.next.Some? {
        var rest := Walk(stores[1..], pda, page.next, limit);
        WalkNeverRepeats(stores[1..], pda, page.next, limit);
        PageThenBelow(page.items, rest, page.next.value);
        var last := page.items[|page.items| - 1];
        assert last in page.items;
        forall r | r in rest ensures ShownFrom(stores, pda, r) && (after.Some? ==> Less(r.key, after.value)) {
          LaterShown(stores, pda, r);
          if after.Some? { Transitive(r.key, last.key, after.value); }
        }
      }
    }
  }

  lemma {:induction false} LaterShown(stores: seq<set<Row>>, pda: string, r: Row)
    requires stores != [] && ShownFrom(stores[1..], pda, r)
    ensures ShownFrom(stores, pda, r)
  {
    hide IsCurrent;
    var i :| 0 <= i < |stores[1..]| && r in stores[1..][i] && IsCurrent(stores[1..][i], pda, r);
    assert stores[i + 1] == stores[1..][i];
  }

  /** The row is the current permission's and in the store at every page. */
  ghost predicate PresentThroughout(stores: seq<set<Row>>, pda: string, r: Row) {
    r.pda == pda && forall i :: 0 <= i < |stores| ==> r in stores[i] && IsCurrent(stores[i], pda, r)
  }

  /** A walk to the end shows every row that was there throughout. */
  lemma {:induction false} WalkIsComplete(stores: seq<set<Row>>, pda: string, after: Option<Key>, limit: nat, r: Row)
    requires AllKeyed(stores) && ReachesEnd(stores, pda, after, limit) && 1 <= limit
    requires PresentThroughout(stores, pda, r) && (after.Some? ==> Less(r.key, after.value))
    ensures r in Walk(stores, pda, after, limit)
    decreases |stores|
  {
    hide Ordered, PageOf, Keyed, Less, IsCurrent, Descending;
    var page := PageOf(stores[0], pda, after, limit);
    PageIsNewest(stores[0], pda, after, limit);
    assert r in Candidates(stores[0], pda, after);
    if page.next.Some? {
      var last := page.items[|page.items| - 1];
      assert last in page.items;
      if r !in page.items {
        LaterPresent(stores, pda, r);
        WalkIsComplete(stores[1..], pda, page.next, limit, r);
      }
    } else {
      WholePage(stores[0], pda, after, limit);
    }
  }

  lemma {:induction false} LaterPresent(stores: seq<set<Row>>, pda: string, r: Row)
    requires stores != [] && PresentThroughout(stores, pda, r)
    ensures PresentThroughout(stores[1..], pda, r)
  {
    hide IsCurrent;
  }

  lemma {:induction false} WholePage(rows: set<Row>, pda: string, after: Option<Key>, limit: nat)
    requires Keyed(rows) && 1 <= limit && PageOf(rows, pda, after, limit).next.None?
    ensures PageOf(rows, pda, after, limit).items == Ordered(Candidates(rows, pda, after))
    ensures forall r :: r in Candidates(rows, pda, after) <==> r in PageOf(rows, pda, after, limit).items
  {
    hide Less, Candidates, Ordered;
    OrderedIs(Candidates(rows, pda, after));
    PageShows(rows, pda, after, limit);
  }

  // ---------------------------------------------------------------- a store nobody writes to

  function Same(rows: set<Row>, n: nat): (stores: seq<set<Row>>) {
    seq(n, _ => rows)
  }

  function PagesFor(count: nat, limit: nat): nat
    requires 1 <= limit
    decreases count
  {
    if count <= limit then 1 else 1 + PagesFor(count - limit, limit)
  }

  /** On a store that stays as it is, the pages are the whole ordered feed, cut at its last creation. */
  lemma {:induction false} FixedStoreWalksWhole(rows: set<Row>, pda: string, after: Option<Key>, limit: nat)
    requires Keyed(rows) && 1 <= limit
    ensures var left := Candidates(rows, pda, after);
            var stores := Same(rows, PagesFor(|left|, limit));
            && ReachesEnd(stores, pda, after, limit)
            && Walk(stores, pda, after, limit) == Ordered(left)
    decreases |Candidates(rows, pda, after)|
  {
    hide PageOf, Less, IsCurrent, Descending, Ordered, Keyed;
    var left := Candidates(rows, pda, after);
    var page := PageOf(rows, pda, after, limit);
    PageShows(rows, pda, after, limit);
    var stores := Same(rows, PagesFor(|left|, limit));
    assert stores[0] == rows;
    if page.next.Some? {
      var last := Ordered(left)[limit - 1];
      RestIsBelow(left, limit);
      OrderedIs(left);
      assert last in left && page.next.value == last.key;
      NextCandidates(rows, pda, after, last);
      assert |Below(left, last.key)| == |left| - limit;
      FixedStoreWalksWhole(rows, pda, page.next, limit);
      assert stores[1..] == Same(rows, PagesFor(|left| - limit, limit));
      assert Ordered(left) == Ordered(left)[..limit] + Ordered(left)[limit..];
    } else {
      WholePage(rows, pda, after, limit);
      assert stores == [rows];
    }
  }

  lemma {:induction false} NextCandidates(rows: set<Row>, pda: string, after: Option<Key>, last: Row)
    requires last in Candidates(rows, pda, after)
    ensures Candidates(rows, pda, Some(last.key)) == Below(Candidates(rows, pda, after), last.key)
  {
    hide Less, IsCurrent;
    forall r | r in Candidates(rows, pda, Some(last.key)) ensures r in Candidates(rows, pda, after) {
      if after.Some? { Transitive(r.key, last.key, after.value); }
    }
  }
}
