/**
 * From accounts to cards: whether a permission's authority still backs it, the
 * conversion of each account to a card or a named refusal, the wallet's list and the
 * single card.
 */
module PermissionList {
  import opened Shared
  import opened ChainRead

  // ---------------------------------------------------------------- one account

  datatype Entry =
    | Known(address: Address, account: Account)
    | Unknown(address: Address, reason: Reason)

  /** The account's own discriminator decides; plans and authorities are not permissions. */
  function Decode(a: Address, account: Account): Entry {
    match account.body
    case Direct(_, _, _, _) => Known(a, account)
    case Subscription(_) => Known(a, account)
    case Undecodable(reason) => Unknown(a, reason)
    case _ => Unknown(a, Discriminator)
  }

  datatype AuthorityState = Live | Closed | Rotated

  /** Where the authority lives: stored for fixed and recurring, derived for a subscription. */
  function AuthorityOf(account: Account, plan: Option<PlanRef>): Option<Address> {
    if account.body.Direct? then Some(account.body.authority)
    else if account.body.Subscription? && plan.Some? then Some(AuthorityPda(account.delegator, plan.value.mint))
    else None
  }

  predicate IsAuthority(reader: Reader, chain: Chain, a: Address) {
    a in chain && chain[a].owner == reader.program && chain[a].body.Authority?
  }

  function StateOf(reader: Reader, chain: Chain, account: Account, authority: Address): AuthorityState {
    if !IsAuthority(reader, chain, authority) then Closed
    else if chain[authority].body.authorityInitId == account.initId then Live
    else Rotated
  }

  datatype Card = Card(pda: Address, owner: Address, delegate: Address, mint: Address, amount: int,
                       status: Status, plan: Option<Address>, supported: bool)

  datatype Verdict = Shown(card: Card) | Unreadable(address: Address, reason: Reason)

  function AddressOf(v: Verdict): Address {
    if v.Shown? then v.card.pda else v.address
  }

  /** `toAllowance`: the version first, then the plan a subscription needs, then the fields. */
  function ToAllowance(reader: Reader, entry: Entry, plan: Option<PlanRef>): Verdict {
    match entry
    case Unknown(a, reason) => Unreadable(a, reason)
    case Known(a, account) =>
      if account.version != reader.version then Unreadable(a, Version)
      else match account.body
        case Direct(_, _, mint, terms) =>
          if !account.fieldsFit then Unreadable(a, Fields)
          else Shown(Card(a, account.delegator, account.delegatee, mint, terms, account.status, None, mint == reader.usdcMint))
        case Subscription(snapshot) =>
          if plan.None? then Unreadable(a, MissingPlan)
          else if !account.fieldsFit then Unreadable(a, Fields)
          else Shown(Card(a, account.delegator, account.delegatee, plan.value.mint, snapshot, account.status,
                          Some(plan.value.pda), plan.value.mint == reader.usdcMint))
        case _ => Unreadable(a, Discriminator)
  }

  /** A dead authority outranks whatever the account's own fields say. */
  function Outrank(v: Verdict, state: AuthorityState): Verdict {
    if v.Shown? && !state.Live? then Shown(v.card.(status := Revoked)) else v
  }

  /**
   * The reference: what one account of the chain means, with nothing else of the wallet
   * looked at.
   */
  function Meaning(reader: Reader, chain: Chain, a: Address, plan: Option<PlanRef>): Verdict
    requires a in chain
  {
    var entry := Decode(a, chain[a]);
    var authority := AuthorityOf(chain[a], plan);
    Outrank(ToAllowance(reader, entry, plan),
            if authority.Some? then StateOf(reader, chain, chain[a], authority.value) else Live)
  }

  /** The authority address holds a live authority: an account of the program with the permission's own init id. */
  ghost predicate Backs(reader: Reader, chain: Chain, authority: Address, initId: int) {
    && authority in chain && chain[authority].owner == reader.program
    && chain[authority].body.Authority? && chain[authority].body.authorityInitId == initId
  }

  /**
   * What the chain's fields say of one account, given the plan found for it: which card it
   * is, field by field, or why it is refused.
   */
  ghost predicate Says(reader: Reader, chain: Chain, a: Address, plan: Option<PlanRef>, v: Verdict)
    requires a in chain
  {
    var c := chain[a];
    match c.body
    case Direct(_, authority, mint, terms) =>
      if c.version != reader.version then v == Unreadable(a, Version)
      else if !c.fieldsFit then v == Unreadable(a, Fields)
      else v == Shown(Card(a, c.delegator, c.delegatee, mint, terms,
                           if Backs(reader, chain, authority, c.initId) then c.status else Revoked,
                           None, mint == reader.usdcMint))
    case Subscription(snapshot) =>
      if c.version != reader.version then v == Unreadable(a, Version)
      else if plan.None? then v == Unreadable(a, MissingPlan)
      else if !c.fieldsFit then v == Unreadable(a, Fields)
      else v == Shown(Card(a, c.delegator, c.delegatee, plan.value.mint, snapshot,
                           if Backs(reader, chain, AuthorityPda(c.delegator, plan.value.mint), c.initId)
                           then c.status else Revoked,
                           Some(plan.value.pda), plan.value.mint == reader.usdcMint))
    case Undecodable(reason) => v == Unreadable(a, reason)
    case Plan(_) => v == Unreadable(a, Discriminator)
    case Authority(_) => v == Unreadable(a, Discriminator)
  }

  lemma {:induction false} MeaningSays(reader: Reader, chain: Chain, a: Address, plan: Option<PlanRef>)
    requires a in chain
    ensures Says(reader, chain, a, plan, Meaning(reader, chain, a, plan))
  {
  }

  /** A closed or a rotated authority revokes a permission, whatever its own account says; a live one leaves it alone. */
  lemma {:induction false} DeadAuthorityRevokes(reader: Reader, chain: Chain, a: Address, plan: Option<PlanRef>)
    requires a in chain && Meaning(reader, chain, a, plan).Shown?
    ensures var c, card := chain[a], Meaning(reader, chain, a, plan).card;
            && (c.body.Direct? || (c.body.Subscription? && plan.Some?))
            && var authority := if c.body.Direct? then c.body.authority else AuthorityPda(c.delegator, plan.value.mint);
               card.status == if || authority !in chain || chain[authority].owner != reader.program
                                 || !chain[authority].body.Authority? || chain[authority].body.authorityInitId != c.initId
                              then Revoked else c.status
  {
  }

  /** The plan found is the one the account's own address derives from, a plan of the program - if it is within reach. */
  ghost predicate IsOwnPlan(reader: Reader, chain: Chain, a: Address, inReach: bool, plan: Option<PlanRef>)
    requires a in chain
  {
    if a.SubscriptionPda? && a.subscriber == chain[a].delegator && a.plan in chain
       && chain[a.plan].owner == reader.program && chain[a.plan].body.Plan? && inReach
    then plan == Some(PlanRef(a.plan, chain[a.plan].body.planMint)) else plan == None
  }

  function OwnPlan(reader: Reader, chain: Chain, a: Address): Option<PlanRef>
    requires a in chain
  {
    Resolved(reader, chain, a, {chain[a].delegator})
  }

  // ---------------------------------------------------------------- authorities, read in one go

  predicate FromChain(chain: Chain, entries: seq<Entry>) {
    forall i :: 0 <= i < |entries| ==>
      entries[i].address in chain && entries[i] == Decode(entries[i].address, chain[entries[i].address])
  }

  method AuthorityStates(reader: Reader, chain: Chain, entries: seq<Entry>, refs: map<Address, PlanRef>)
    returns (states: map<Address, AuthorityState>)
    requires FromChain(chain, entries)
    ensures forall i :: 0 <= i < |entries| && entries[i].Known? ==>
              var authority := AuthorityOf(entries[i].account, Lookup(refs, entries[i].address));
              if authority.Some?
              then && entries[i].address in states
                   && states[entries[i].address] == StateOf(reader, chain, entries[i].account, authority.value)
              else entries[i].address !in states
  {
    var byPermission: map<Address, Address> := map[];
    for i := 0 to |entries|
      invariant forall k :: 0 <= k < i && entries[k].Known? ==>
                  Lookup(byPermission, entries[k].address)
                  == AuthorityOf(entries[k].account, Lookup(refs, entries[k].address))
      invariant forall a :: a in byPermission ==>
                  (a in chain && AuthorityOf(chain[a], Lookup(refs, a)) == Some(byPermission[a]))
    {
      if entries[i].Known? {
        var authority := AuthorityOf(entries[i].account, Lookup(refs, entries[i].address));
        if authority.Some? { byPermission := byPermission[entries[i].address := authority.value]; }
      }
    }
    states := map[];
    var initIds: map<Address, int> := map[];
    var rest := byPermission.Values;
    while rest != {}
      invariant rest <= byPermission.Values
      invariant forall x :: x in byPermission.Values - rest ==> (x in initIds <==> IsAuthority(reader, chain, x))
      invariant forall x :: x in initIds ==> IsAuthority(reader, chain, x) && initIds[x] == chain[x].body.authorityInitId
    {
      var x :| x in rest;
      rest := rest - {x};
      if IsAuthority(reader, chain, x) { initIds := initIds[x := chain[x].body.authorityInitId]; }
    }
    for i := 0 to |entries|
      invariant forall a :: a in states ==>
                  (a in byPermission && states[a] == StateOf(reader, chain, chain[a], byPermission[a]))
      invariant forall k :: 0 <= k < i && entries[k].Known? && entries[k].address in byPermission ==>
                  entries[k].address in states
    {
      if entries[i].Known? && entries[i].address in byPermission {
        var authority := byPermission[entries[i].address];
        assert authority in byPermission.Values;
        states := states[entries[i].address :=
          if authority !in initIds then Closed
          else if initIds[authority] == entries[i].account.initId then Live else Rotated];
      }
    }
  }

  // ---------------------------------------------------------------- accounts to cards

  function Only(verdicts: seq<Verdict>, shown: bool): seq<Verdict> {
    if verdicts == [] then [] else OnlyOne(verdicts[0], shown) + Only(verdicts[1..], shown)
  }

  function OnlyOne(v: Verdict, shown: bool): seq<Verdict> {
    if v.Shown? == shown then [v] else []
  }

  lemma {:induction false} OnlyAppend(verdicts: seq<Verdict>, v: Verdict, shown: bool)
    ensures Only(verdicts + [v], shown) == Only(verdicts, shown) + OnlyOne(v, shown)
    decreases |verdicts|
  {
    hide OnlyOne;
    if verdicts == [] {
      assert verdicts + [v] == [v] && [v][1..] == [] && Only([], shown) == [];
      assert OnlyOne(v, shown) + [] == OnlyOne(v, shown) == [] + OnlyOne(v, shown);
    } else {
      var all, first := verdicts + [v], OnlyOne(verdicts[0], shown);
      assert all[0] == verdicts[0] && all[1..] == verdicts[1..] + [v];
      OnlyAppend(verdicts[1..], v, shown);
      assert first + (Only(verdicts[1..], shown) + OnlyOne(v, shown)) == (first + Only(verdicts[1..], shown)) + OnlyOne(v, shown);
    }
  }

  /** Cards and refusals together are the verdicts, each once. */
  lemma {:induction false} OnlyPartitions(verdicts: seq<Verdict>)
    ensures multiset(Only(verdicts, true)) + multiset(Only(verdicts, false)) == multiset(verdicts)
    decreases |verdicts|
  {
    if verdicts != [] {
      OnlyPartitions(verdicts[1..]);
      OnlyFirst(verdicts);
      hide Only;
      OneMoreVerdict(verdicts);
    }
  }

  lemma {:induction false} OnlyFirst(verdicts: seq<Verdict>)
    requires verdicts != []
    ensures var v, shown, refused := verdicts[0], Only(verdicts[1..], true), Only(verdicts[1..], false);
            && multiset(Only(verdicts, true)) == (if v.Shown? then multiset{v} + multiset(shown) else multiset(shown))
            && multiset(Only(verdicts, false)) == (if v.Shown? then multiset(refused) else multiset{v} + multiset(refused))
  {
    var v := verdicts[0];
    assert Only(verdicts, v.Shown?) == [v] + Only(verdicts[1..], v.Shown?);
    assert Only(verdicts, !v.Shown?) == [] + Only(verdicts[1..], !v.Shown?) == Only(verdicts[1..], !v.Shown?);
  }

  lemma {:induction false} OneMoreVerdict(verdicts: seq<Verdict>)
    requires verdicts != []
    ensures multiset(verdicts) == multiset{verdicts[0]} + multiset(verdicts[1..])
  {
    assert verdicts == [verdicts[0]] + verdicts[1..];
  }

  function Verdicts(reader: Reader, chain: Chain, entries: seq<Entry>, refs: map<Address, PlanRef>): (r: seq<Verdict>)
    requires FromChain(chain, entries)
  {
    seq(|entries|, i requires 0 <= i < |entries| =>
      Meaning(reader, chain, entries[i].address, Lookup(refs, entries[i].address)))
  }

  lemma {:induction false} VerdictsSay(reader: Reader, chain: Chain, entries: seq<Entry>, refs: map<Address, PlanRef>)
    requires FromChain(chain, entries)
    ensures forall i :: 0 <= i < |entries| ==>
              Says(reader, chain, entries[i].address, Lookup(refs, entries[i].address), Verdicts(reader, chain, entries, refs)[i])
  {
    hide Says, Meaning;
    forall i | 0 <= i < |entries|
      ensures Says(reader, chain, entries[i].address, Lookup(refs, entries[i].address), Verdicts(reader, chain, entries, refs)[i])
    {
      MeaningSays(reader, chain, entries[i].address, Lookup(refs, entries[i].address));
    }
  }

  method Convert(reader: Reader, chain: Chain, entries: seq<Entry>, refs: map<Address, PlanRef>,
                 states: map<Address, AuthorityState>)
    returns (allowances: seq<Verdict>, unreadable: seq<Verdict>)
    requires FromChain(chain, entries)
    requires forall i :: 0 <= i < |entries| && entries[i].Known? ==>
              var authority := AuthorityOf(entries[i].account, Lookup(refs, entries[i].address));
              if authority.Some?
              then && entries[i].address in states
                   && states[entries[i].address] == StateOf(reader, chain, entries[i].account, authority.value)
              else entries[i].address !in states
    ensures allowances == Only(Verdicts(reader, chain, entries, refs), true)
    ensures unreadable == Only(Verdicts(reader, chain, entries, refs), false)
    ensures forall i :: 0 <= i < |entries| ==>
              Says(reader, chain, entries[i].address, Lookup(refs, entries[i].address), Verdicts(reader, chain, entries, refs)[i])
  {
    allowances, unreadable := [], [];
    ghost var all := Verdicts(reader, chain, entries, refs);
    VerdictsSay(reader, chain, entries, refs);
    hide Says;
    for i := 0 to |entries|
      invariant allowances == Only(all[..i], true) && unreadable == Only(all[..i], false)
    {
      var entry := entries[i];
      assert all[..i + 1] == all[..i] + [all[i]];
      OnlyAppend(all[..i], all[i], true);
      OnlyAppend(all[..i], all[i], false);
      if entry.Unknown? {
        unreadable := unreadable + [Unreadable(entry.address, entry.reason)];
        continue;
      }
      var converted := ToAllowance(reader, entry, Lookup(refs, entry.address));
      if converted.Shown? {
        var state := if entry.address in states then states[entry.address] else Live;
        allowances := allowances + [Outrank(converted, state)];
      } else {
        unreadable := unreadable + [converted];
      }
    }
    assert all[..|entries|] == all;
  }

  // ---------------------------------------------------------------- the list and the card

  predicate InOrder(rank: Address -> int, verdicts: seq<Verdict>) {
    forall i, j :: 0 <= i < j < |verdicts| ==> rank(AddressOf(verdicts[i])) <= rank(AddressOf(verdicts[j]))
  }

  function Insert(rank: Address -> int, v: Verdict, sorted: seq<Verdict>): (r: seq<Verdict>)
    ensures multiset(r) == multiset{v} + multiset(sorted)
  {
    if sorted == [] || rank(AddressOf(v)) <= rank(AddressOf(sorted[0])) then [v] + sorted
    else
      assert sorted == [sorted[0]] + sorted[1..];
      [sorted[0]] + Insert(rank, v, sorted[1..])
  }

  lemma {:induction false} InsertKeepsOrder(rank: Address -> int, v: Verdict, sorted: seq<Verdict>)
    requires InOrder(rank, sorted)
    ensures InOrder(rank, Insert(rank, v, sorted))
    decreases |sorted|
  {
    if sorted != [] && rank(AddressOf(v)) > rank(AddressOf(sorted[0])) {
      InsertKeepsOrder(rank, v, sorted[1..]);
      var rest := Insert(rank, v, sorted[1..]);
      forall j | 0 <= j < |rest| ensures rank(AddressOf(sorted[0])) <= rank(AddressOf(rest[j])) {
        assert rest[j] in multiset(rest);
        assert rest[j] == v || rest[j] in sorted[1..];
      }
    }
  }

  function SortByAddress(rank: Address -> int, verdicts: seq<Verdict>): (r: seq<Verdict>)
    ensures multiset(r) == multiset(verdicts)
  {
    if verdicts == [] then []
    else
      assert verdicts == [verdicts[0]] + verdicts[1..];
      Insert(rank, verdicts[0], SortByAddress(rank, verdicts[1..]))
  }

  lemma {:induction false} SortOrders(rank: Address -> int, verdicts: seq<Verdict>)
    ensures InOrder(rank, SortByAddress(rank, verdicts))
    decreases |verdicts|
  {
    if verdicts != [] {
      SortOrders(rank, verdicts[1..]);
      InsertKeepsOrder(rank, verdicts[0], SortByAddress(rank, verdicts[1..]));
    }
  }

  function SubscriptionsAmong(entries: seq<Entry>): seq<SubscriptionAccount> {
    if entries == [] then []
    else
      (if entries[0].Known? && entries[0].account.body.Subscription?
       then [SubscriptionAccount(entries[0].address, entries[0].account.delegator, entries[0].account.delegatee)]
       else [])
      + SubscriptionsAmong(entries[1..])
  }

  ghost predicate NamedBy(entries: seq<Entry>, s: SubscriptionAccount) {
    exists i :: 0 <= i < |entries| && NamedAt(entries[i], s)
  }

  predicate NamedAt(entry: Entry, s: SubscriptionAccount) {
    && entry.Known? && entry.account.body.Subscription? && entry.address == s.address
    && entry.account.delegator == s.subscriber && entry.account.delegatee == s.delegatee
  }

  lemma {:induction false} SubscriptionsAmongHolds(entries: seq<Entry>)
    ensures forall i :: 0 <= i < |entries| && entries[i].Known? && entries[i].account.body.Subscription? ==>
              SubscriptionAccount(entries[i].address, entries[i].account.delegator, entries[i].account.delegatee)
              in SubscriptionsAmong(entries)
    ensures forall s :: s in SubscriptionsAmong(entries) ==> NamedBy(entries, s)
    decreases |entries|
  {
    if entries != [] {
      SubscriptionsAmongHolds(entries[1..]);
      forall s | s in SubscriptionsAmong(entries)
        ensures NamedBy(entries, s)
      {
        if s in SubscriptionsAmong(entries[1..]) {
          var i :| 0 <= i < |entries[1..]| && NamedAt(entries[1..][i], s);
          assert entries[i + 1] == entries[1..][i];
        } else {
          assert NamedAt(entries[0], s);
        }
      }
    }
  }

  /** The plans the listed subscriptions point at. */
  function PointedAt(chain: Chain, listed: seq<Address>): set<Address>
    requires forall i :: 0 <= i < |listed| ==> listed[i] in chain
  {
    set i | 0 <= i < |listed| && chain[listed[i]].body.Subscription? :: chain[listed[i]].delegatee
  }

  /** The plan the list finds for an account: its own, unless the scan is off and nothing listed points at it. */
  function ListPlan(reader: Reader, chain: Chain, listed: seq<Address>, a: Address, fullPlanScan: bool): Option<PlanRef>
    requires forall i :: 0 <= i < |listed| ==> listed[i] in chain
    requires a in chain
  {
    var own := OwnPlan(reader, chain, a);
    if own.Some? && (fullPlanScan || a.plan in PointedAt(chain, listed)) then own else None
  }

  lemma {:induction false} DelegateesAreThose(chain: Chain, entries: seq<Entry>, listed: seq<Address>)
    requires |entries| == |listed| && forall i :: 0 <= i < |listed| ==> listed[i] in chain
    requires forall i :: 0 <= i < |listed| ==> entries[i] == Decode(listed[i], chain[listed[i]])
    ensures Delegatees(SubscriptionsAmong(entries)) == PointedAt(chain, listed)
  {
    var subs := SubscriptionsAmong(entries);
    SubscriptionsAmongHolds(entries);
    forall d ensures d in Delegatees(subs) <==> d in PointedAt(chain, listed) {
      if d in Delegatees(subs) {
        var k :| 0 <= k < |subs| && subs[k].delegatee == d;
        assert subs[k] in subs && NamedBy(entries, subs[k]);
        var i :| 0 <= i < |entries| && NamedAt(entries[i], subs[k]);
        assert chain[listed[i]].body.Subscription? && chain[listed[i]].delegatee == d;
      }
      if d in PointedAt(chain, listed) {
        var i :| 0 <= i < |listed| && chain[listed[i]].body.Subscription? && chain[listed[i]].delegatee == d;
        var s := SubscriptionAccount(entries[i].address, entries[i].account.delegator, entries[i].account.delegatee);
        assert s in subs;
        var k :| 0 <= k < |subs| && subs[k] == s;
        assert subs[k].delegatee == d;
      }
    }
  }

  /** With one owner each entry's plan is its own, as far as the scan reaches. */
  lemma {:induction false} ListResolvesOwnPlans(reader: Reader, chain: Chain, entries: seq<Entry>, refs: map<Address, PlanRef>,
                                                listed: seq<Address>, owner: Address, fullPlanScan: bool)
    requires |entries| == |listed| && forall i :: 0 <= i < |listed| ==> listed[i] in chain && chain[listed[i]].delegator == owner
    requires forall i :: 0 <= i < |listed| ==> entries[i] == Decode(listed[i], chain[listed[i]])
    requires AllResolved(reader, chain, SubscriptionsAmong(entries), refs, fullPlanScan)
    ensures forall i :: 0 <= i < |listed| ==>
              Meaning(reader, chain, listed[i], Lookup(refs, listed[i]))
              == Meaning(reader, chain, listed[i], ListPlan(reader, chain, listed, listed[i], fullPlanScan))
  {
    var subs := SubscriptionsAmong(entries);
    SubscriptionsAmongHolds(entries);
    DelegateesAreThose(chain, entries, listed);
    hide SubscriptionsAmong, PointedAt, Delegatees;
    forall i | 0 <= i < |listed|
      ensures Meaning(reader, chain, listed[i], Lookup(refs, listed[i]))
              == Meaning(reader, chain, listed[i], ListPlan(reader, chain, listed, listed[i], fullPlanScan))
    {
      var a := listed[i];
      if chain[a].body.Subscription? {
        hide Meaning;
        var s := SubscriptionAccount(a, chain[a].delegator, chain[a].delegatee);
        assert s in subs;
        var k :| 0 <= k < |subs| && subs[k] == s;
        forall m | 0 <= m < |subs| ensures subs[m].subscriber == owner {
          assert subs[m] in subs && NamedBy(entries, subs[m]);
        }
        OneSubscriberResolvesItsOwn(reader, chain, subs, k);
        assert Lookup(refs, subs[k].address) == Resolves(reader, chain, subs, subs[k].address, fullPlanScan);
        assert Lookup(refs, a) == ListPlan(reader, chain, listed, a, fullPlanScan);
      } else {
        OnlySubscriptionsNeedPlans(reader, chain, a, Lookup(refs, a), ListPlan(reader, chain, listed, a, fullPlanScan));
      }
    }
  }

  lemma {:induction false} OnlySubscriptionsNeedPlans(reader: Reader, chain: Chain, a: Address, p: Option<PlanRef>, q: Option<PlanRef>)
    requires a in chain && !chain[a].body.Subscription?
    ensures Meaning(reader, chain, a, p) == Meaning(reader, chain, a, q)
  {
  }

  /** What the list shows of an account. */
  function ListMeaning(reader: Reader, chain: Chain, listed: seq<Address>, a: Address, fullPlanScan: bool): Verdict
    requires forall i :: 0 <= i < |listed| ==> listed[i] in chain
    requires a in chain
  {
    Meaning(reader, chain, a, ListPlan(reader, chain, listed, a, fullPlanScan))
  }

  /** What a wallet's accounts mean, in the order listed. */
  function Meanings(reader: Reader, chain: Chain, listed: seq<Address>, fullPlanScan: bool): seq<Verdict>
    requires forall i :: 0 <= i < |listed| ==> listed[i] in chain
  {
    seq(|listed|, i requires 0 <= i < |listed| => ListMeaning(reader, chain, listed, listed[i], fullPlanScan))
  }

  /** What the chain's fields say of an account by its own plan, with that plan within reach or not. */
  ghost predicate SaysByOwnPlan(reader: Reader, chain: Chain, a: Address, inReach: bool, v: Verdict)
    requires a in chain
  {
    exists plan :: IsOwnPlan(reader, chain, a, inReach, plan) && Says(reader, chain, a, plan, v)
  }

  /** One of the listed subscriptions points at `plan`. */
  ghost predicate PointsAt(chain: Chain, listed: seq<Address>, plan: Address)
    requires forall i :: 0 <= i < |listed| ==> listed[i] in chain
  {
    exists k :: 0 <= k < |listed| && chain[listed[k]].body.Subscription? && chain[listed[k]].delegatee == plan
  }

  lemma {:induction false} ListedSay(reader: Reader, chain: Chain, listed: seq<Address>, fullPlanScan: bool)
    requires forall i :: 0 <= i < |listed| ==> listed[i] in chain
    ensures forall i :: 0 <= i < |listed| ==>
              SaysByOwnPlan(reader, chain, listed[i],
                            fullPlanScan || (listed[i].SubscriptionPda? && PointsAt(chain, listed, listed[i].plan)),
                            Meanings(reader, chain, listed, fullPlanScan)[i])
  {
    hide Says, Meaning;
    forall i | 0 <= i < |listed|
      ensures SaysByOwnPlan(reader, chain, listed[i],
                            fullPlanScan || (listed[i].SubscriptionPda? && PointsAt(chain, listed, listed[i].plan)),
                            Meanings(reader, chain, listed, fullPlanScan)[i])
    {
      var a, plan := listed[i], ListPlan(reader, chain, listed, listed[i], fullPlanScan);
      MeaningSays(reader, chain, a, plan);
      assert IsOwnPlan(reader, chain, a, fullPlanScan || (a.SubscriptionPda? && PointsAt(chain, listed, a.plan)), plan);
    }
  }

  /** The program's accounts with `owner` at the filtered offset, each once. */
  ghost predicate Lists(reader: Reader, chain: Chain, owner: Address, listed: seq<Address>) {
    && (forall i, j :: 0 <= i < j < |listed| ==> listed[i] != listed[j])
    && (forall i :: 0 <= i < |listed| ==> listed[i] in chain)
    && (forall a :: a in listed <==> a in chain && chain[a].owner == reader.program && chain[a].delegator == owner)
  }

  /**
   * The wallet's list: every account ends as exactly one card or one named refusal, in
   * address order, and each is what the account means on its own.
   */
  method ReadAllowances(reader: Reader, chain: Chain, rank: Address -> int, owner: Address, listed: seq<Address>,
                        fullPlanScan: bool)
    returns (allowances: seq<Verdict>, unreadable: seq<Verdict>)
    requires Lists(reader, chain, owner, listed)
    ensures InOrder(rank, allowances) && InOrder(rank, unreadable)
    ensures multiset(allowances) + multiset(unreadable) == multiset(Meanings(reader, chain, listed, fullPlanScan))
    ensures forall i :: 0 <= i < |allowances| ==> allowances[i].Shown?
    ensures forall i :: 0 <= i < |unreadable| ==> unreadable[i].Unreadable?
    ensures forall i :: 0 <= i < |listed| ==>
              SaysByOwnPlan(reader, chain, listed[i],
                            fullPlanScan || (listed[i].SubscriptionPda? && PointsAt(chain, listed, listed[i].plan)),
                            Meanings(reader, chain, listed, fullPlanScan)[i])
  {
    ListedSay(reader, chain, listed, fullPlanScan);
    hide SaysByOwnPlan;
    assert forall i :: 0 <= i < |listed| ==> listed[i] in listed;
    var entries := seq(|listed|, i requires 0 <= i < |listed| => Decode(listed[i], chain[listed[i]]));
    hide Meaning;
    var refs := ResolvePlanRefs(reader, chain, SubscriptionsAmong(entries), fullPlanScan);
    ListSubscriptions(entries, refs, reader, chain, listed, owner, fullPlanScan);
    var states := AuthorityStates(reader, chain, entries, refs);
    var cards, refusals := Convert(reader, chain, entries, refs, states);
    ghost var all := Verdicts(reader, chain, entries, refs);
    OnlyPartitions(all);
    OnlyKinds(all);
    SortOrders(rank, cards);
    SortOrders(rank, refusals);
    allowances, unreadable := SortByAddress(rank, cards), SortByAddress(rank, refusals);
    forall i | 0 <= i < |allowances| ensures allowances[i].Shown? {
      assert allowances[i] in multiset(allowances);
    }
    forall i | 0 <= i < |unreadable| ensures unreadable[i].Unreadable? {
      assert unreadable[i] in multiset(unreadable);
    }
  }

  lemma {:induction false} ListSubscriptions(entries: seq<Entry>, refs: map<Address, PlanRef>, reader: Reader, chain: Chain,
                          listed: seq<Address>, owner: Address, fullPlanScan: bool)
    requires Lists(reader, chain, owner, listed) && |entries| == |listed|
    requires forall i :: 0 <= i < |listed| ==> entries[i] == Decode(listed[i], chain[listed[i]])
    requires AllResolved(reader, chain, SubscriptionsAmong(entries), refs, fullPlanScan)
    ensures FromChain(chain, entries)
    ensures Verdicts(reader, chain, entries, refs) == Meanings(reader, chain, listed, fullPlanScan)
  {
    assert forall i :: 0 <= i < |listed| ==> listed[i] in listed;
    assert forall i :: 0 <= i < |listed| ==> entries[i].address == listed[i];
    ListResolvesOwnPlans(reader, chain, entries, refs, listed, owner, fullPlanScan);
    hide Meaning, ListPlan;
    assert Verdicts(reader, chain, entries, refs) == Meanings(reader, chain, listed, fullPlanScan);
  }

  lemma {:induction false} OnlyKinds(verdicts: seq<Verdict>)
    ensures forall v :: v in Only(verdicts, true) ==> v.Shown?
    ensures forall v :: v in Only(verdicts, false) ==> v.Unreadable?
    decreases |verdicts|
  {
    if verdicts != [] { OnlyKinds(verdicts[1..]); }
  }

  /**
   * The single card: the same meaning the list gives the account, and nothing for an
   * address that holds no account of the program.
   */
  method ReadAllowance(reader: Reader, chain: Chain, pda: Address, fullPlanScan: bool)
    returns (allowance: Option<Verdict>, unreadable: Option<Verdict>)
    ensures pda !in chain || chain[pda].owner != reader.program ==> allowance == None && unreadable == None
    ensures pda in chain && chain[pda].owner == reader.program ==>
              var meaning := Meaning(reader, chain, pda, CardPlan(reader, chain, pda, fullPlanScan));
              if meaning.Shown? then allowance == Some(meaning) && unreadable == None
              else allowance == None && unreadable == Some(meaning)
    ensures pda in chain && chain[pda].owner == reader.program ==>
              && (allowance.Some? ==> allowance.value.Shown?) && (unreadable.Some? ==> unreadable.value.Unreadable?)
              && allowance.Some? != unreadable.Some?
              && SaysByOwnPlan(reader, chain, pda,
                               fullPlanScan || (pda.SubscriptionPda? && chain[pda].delegatee == pda.plan),
                               if allowance.Some? then allowance.value else unreadable.value)
  {
    if pda in chain {
      CardSays(reader, chain, pda, fullPlanScan);
    }
    hide SaysByOwnPlan;
    if pda !in chain || chain[pda].owner != reader.program { return None, None; }
    var entries := [Decode(pda, chain[pda])];
    assert entries[1..] == [];
    var subs := SubscriptionsAmong(entries);
    var refs := ResolvePlanRefs(reader, chain, subs, fullPlanScan);
    var states := AuthorityStates(reader, chain, entries, refs);
    var cards, refusals := Convert(reader, chain, entries, refs, states);
    ghost var all := Verdicts(reader, chain, entries, refs);
    assert all == [all[0]];
    assert Only(all, true) == if all[0].Shown? then [all[0]] else [];
    assert Only(all, false) == if all[0].Shown? then [] else [all[0]];
    if entries[0].Known? && entries[0].account.body.Subscription? {
      assert SubscriptionsAmong(entries[1..]) == [];
      assert subs == [SubscriptionAccount(entries[0].address, entries[0].account.delegator, entries[0].account.delegatee)]
                     + SubscriptionsAmong(entries[1..]);
      assert subs == [SubscriptionAccount(pda, chain[pda].delegator, chain[pda].delegatee)];
      assert Subscribers(subs) == {subs[0].subscriber} && Delegatees(subs) == {subs[0].delegatee};
    }
    allowance := if |cards| > 0 then Some(cards[0]) else None;
    unreadable := if |refusals| > 0 then Some(refusals[0]) else None;
  }

  /** The plan a single card finds: its own, unless the scan is off and `delegatee` points elsewhere. */
  function CardPlan(reader: Reader, chain: Chain, a: Address, fullPlanScan: bool): Option<PlanRef>
    requires a in chain
  {
    var own := OwnPlan(reader, chain, a);
    if own.Some? && (fullPlanScan || a.plan == chain[a].delegatee) then own else None
  }

  lemma {:induction false} CardSays(reader: Reader, chain: Chain, a: Address, fullPlanScan: bool)
    requires a in chain
    ensures SaysByOwnPlan(reader, chain, a, fullPlanScan || (a.SubscriptionPda? && chain[a].delegatee == a.plan),
                          Meaning(reader, chain, a, CardPlan(reader, chain, a, fullPlanScan)))
  {
    hide Says, Meaning;
    var plan := CardPlan(reader, chain, a, fullPlanScan);
    MeaningSays(reader, chain, a, plan);
    assert IsOwnPlan(reader, chain, a, fullPlanScan || (a.SubscriptionPda? && chain[a].delegatee == a.plan), plan);
  }

  /** With the full scan the list shows every account exactly as its card does: by its own plan. */
  lemma {:induction false} ListAndCardAgree(reader: Reader, chain: Chain, listed: seq<Address>, a: Address)
    requires forall i :: 0 <= i < |listed| ==> listed[i] in chain
    requires a in chain
    ensures ListMeaning(reader, chain, listed, a, true) == Meaning(reader, chain, a, CardPlan(reader, chain, a, true))
    ensures ListMeaning(reader, chain, listed, a, true) == Meaning(reader, chain, a, OwnPlan(reader, chain, a))
  {
    hide Meaning;
  }

  /**
   * With the scan switched off the list can know more than the card. They show an account
   * differently exactly when it is a subscription of this reader's version that does not
   * itself point at its own plan, while another listed subscription does.
   */
  lemma {:induction false} WithoutScanListAndCardDifferIff(reader: Reader, chain: Chain, owner: Address, listed: seq<Address>, a: Address)
    requires Lists(reader, chain, owner, listed) && a in listed
    ensures a in chain
    ensures ListMeaning(reader, chain, listed, a, false) != Meaning(reader, chain, a, CardPlan(reader, chain, a, false))
            <==> (chain[a].body.Subscription? && chain[a].version == reader.version
                  && OwnPlan(reader, chain, a).Some? && a.plan != chain[a].delegatee
                  && exists k :: 0 <= k < |listed| && chain[listed[k]].body.Subscription?
                                 && chain[listed[k]].delegatee == a.plan)
  {
    if chain[a].body.Subscription? {
      var i :| 0 <= i < |listed| && listed[i] == a;
      assert chain[a].delegatee in PointedAt(chain, listed);
    } else {
      OnlySubscriptionsNeedPlans(reader, chain, a, ListPlan(reader, chain, listed, a, false), CardPlan(reader, chain, a, false));
    }
  }

  /** A plan, and two subscriptions of one wallet of which only the other one points at it. */
  function TwoSubscriptions(reader: Reader): Chain {
    var plan, other, wallet, mint := Key(1), Key(2), Key(3), Key(4);
    map[plan := Account(reader.program, other, other, reader.version, 0, Active, true, Plan(mint)),
        SubscriptionPda(plan, wallet) := Account(reader.program, wallet, other, reader.version, 0, Active, true, Subscription(0)),
        SubscriptionPda(other, wallet) := Account(reader.program, wallet, plan, reader.version, 0, Active, true, Subscription(0))]
  }

  /** Without the scan the list shows the first as a card, and asked for alone it is refused: its plan is missing. */
  lemma {:induction false} WithoutScanListAndCardCanDiffer(reader: Reader)
    ensures var chain, a, b := TwoSubscriptions(reader), SubscriptionPda(Key(1), Key(3)), SubscriptionPda(Key(2), Key(3));
            && a in chain && b in chain && Lists(reader, chain, Key(3), [a, b])
            && ListMeaning(reader, chain, [a, b], a, false).Shown?
            && Meaning(reader, chain, a, CardPlan(reader, chain, a, false)) == Unreadable(a, MissingPlan)
  {
    var chain, listed := TwoSubscriptions(reader), [SubscriptionPda(Key(1), Key(3)), SubscriptionPda(Key(2), Key(3))];
    assert chain[listed[1]].delegatee in PointedAt(chain, listed);
    assert listed[0] in listed && listed[1] in listed;
  }
}
