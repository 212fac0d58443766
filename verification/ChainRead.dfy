/**
 * Reading a wallet's permissions from one state of the chain: batched account
 * reads, plan resolution with a fast path and a full scan behind it, the authority
 * behind each permission, and the cards and named refusals it all ends in.
 */
module ChainRead {
  import opened Shared

  /** A derived address is its seeds: derivation is injective, and its kinds do not collide. */
  datatype Address =
    | Key(bytes: nat)
    | SubscriptionPda(plan: Address, subscriber: Address)
    | AuthorityPda(user: Address, mint: Address)

  /** What the bytes of an account decode to. */
  datatype Body =
    | Plan(planMint: Address)
    | Authority(authorityInitId: int)
    | Direct(recurring: bool, authority: Address, mint: Address, terms: int)
    | Subscription(snapshot: int)
    | Undecodable(reason: Reason)

  datatype Reason = Empty | Discriminator | Length | Version | MissingPlan | Fields

  /**
   * `delegator` is what stands at the offset the list filters on; `delegatee`, `version`
   * and `initId` are the other header fields. `status` is what the account's own fields
   * say, `fieldsFit` whether they pass the shared schema.
   */
  datatype Account = Account(owner: Address, delegator: Address, delegatee: Address, version: int, initId: int,
                             status: Status, fieldsFit: bool, body: Body)

  datatype Status = Active | Exhausted | Revoked

  type Chain = map<Address, Account>

  /** `version` is the account version this build of the SDK understands. */
  datatype Reader = Reader(program: Address, usdcMint: Address, version: int)

  const MAX_ACCOUNTS_PER_REQUEST: nat := 100

  // ---------------------------------------------------------------- accounts by address

  datatype RawAccount = RawAccount(pubkey: Address, account: Account)

  /** One request of any size: the accounts that exist, in the order asked. */
  function Present(chain: Chain, addresses: seq<Address>): seq<RawAccount> {
    if addresses == [] then []
    else (if addresses[0] in chain then [RawAccount(addresses[0], chain[addresses[0]])] else [])
         + Present(chain, addresses[1..])
  }

  lemma {:induction false} PresentAppend(chain: Chain, a: seq<Address>, b: seq<Address>)
    ensures Present(chain, a + b) == Present(chain, a) + Present(chain, b)
    decreases |a|
  {
    if a == [] {
      assert a + b == b;
    } else {
      assert (a + b)[1..] == a[1..] + b;
      PresentAppend(chain, a[1..], b);
    }
  }

  lemma {:induction false} PresentHolds(chain: Chain, addresses: seq<Address>)
    ensures forall i :: 0 <= i < |Present(chain, addresses)| ==>
              var raw := Present(chain, addresses)[i];
              raw.pubkey in addresses && raw.pubkey in chain && raw.account == chain[raw.pubkey]
    ensures forall a :: a in addresses && a in chain ==> RawAccount(a, chain[a]) in Present(chain, addresses)
    decreases |addresses|
  {
    if addresses != [] {
      PresentHolds(chain, addresses[1..]);
      assert addresses == [addresses[0]] + addresses[1..];
    }
  }

  method Chunk<T>(items: seq<T>, size: nat) returns (chunks: seq<seq<T>>)
    requires size > 0
    ensures Joined(chunks) == items
    ensures forall i :: 0 <= i < |chunks| ==> 0 < |chunks[i]| <= size
    ensures |chunks| == Batches(|items|, size)
  {
    chunks := [];
    var index := 0;
    while index < |items|
      invariant 0 <= index
      invariant |chunks| + Batches(if index <= |items| then |items| - index else 0, size) == Batches(|items|, size)
      invariant Joined(chunks) == items[..if index <= |items| then index else |items|]
      invariant forall i :: 0 <= i < |chunks| ==> 0 < |chunks[i]| <= size
    {
      var end := if index + size <= |items| then index + size else |items|;
      JoinedAppend(chunks, items[index..end]);
      assert items[..end] == items[..index] + items[index..end];
      chunks := chunks + [items[index..end]];
      index := index + size;
    }
  }

  /** How many requests `n` addresses take. */
  function Batches(n: nat, size: nat): nat
    requires size > 0
  {
    if n == 0 then 0 else if n <= size then 1 else 1 + Batches(n - size, size)
  }

  function Joined<T>(chunks: seq<seq<T>>): seq<T> {
    if chunks == [] then [] else chunks[0] + Joined(chunks[1..])
  }

  lemma {:induction false} JoinedAppend<T>(chunks: seq<seq<T>>, last: seq<T>)
    ensures Joined(chunks + [last]) == Joined(chunks) + last
    decreases |chunks|
  {
    if chunks == [] {
      assert (chunks + [last])[1..] == [];
    } else {
      assert (chunks + [last])[1..] == chunks[1..] + [last];
      JoinedAppend(chunks[1..], last);
    }
  }

  datatype SlotBehind = SlotBehind(slot: nat, floor: nat)

  /**
   * Batches of 100 against one chain state: the same accounts as one request without
   * a limit, or a refusal exactly when some batch answered from before `floor`.
   */
  method ReadAccounts(chain: Chain, addresses: seq<Address>, slots: seq<nat>, floor: Option<nat>)
    returns (r: Result<(nat, seq<RawAccount>), SlotBehind>)
    requires |slots| == Batches(|addresses|, MAX_ACCOUNTS_PER_REQUEST)
    ensures r.Err? <==> floor.Some? && exists i :: 0 <= i < |slots| && slots[i] < floor.value
    ensures r.Ok? ==> r.value.1 == Present(chain, addresses)
    ensures r.Ok? ==> r.value.0 == if slots == [] then 0 else slots[|slots| - 1]
  {
    var slot := 0;
    var accounts: seq<RawAccount> := [];
    var batches := Chunk(addresses, MAX_ACCOUNTS_PER_REQUEST);
    var k := 0;
    assert Joined(batches[..0]) == [];
    while k < |batches|
      invariant 0 <= k <= |batches|
      invariant floor.Some? ==> forall i :: 0 <= i < k ==> slots[i] >= floor.value
      invariant accounts == Present(chain, Joined(batches[..k]))
      invariant slot == if k == 0 then 0 else slots[k - 1]
    {
      if floor.Some? && slots[k] < floor.value { return Err(SlotBehind(slots[k], floor.value)); }
      slot := slots[k];
      accounts := accounts + Present(chain, batches[k]);
      PresentAppend(chain, Joined(batches[..k]), batches[k]);
      JoinedAppend(batches[..k], batches[k]);
      assert batches[..k + 1] == batches[..k] + [batches[k]];
      k := k + 1;
    }
    assert batches[..k] == batches;
    return Ok((slot, accounts));
  }

  // ---------------------------------------------------------------- plans

  datatype PlanRef = PlanRef(pda: Address, mint: Address)

  datatype PlanAccount = PlanAccount(address: Address, mint: Address)

  datatype SubscriptionAccount = SubscriptionAccount(address: Address, subscriber: Address, delegatee: Address)

  /** Owner, discriminator and size all say it is a plan of this program. */
  predicate IsPlan(reader: Reader, chain: Chain, a: Address) {
    a in chain && chain[a].owner == reader.program && chain[a].body.Plan?
  }

  function ToPlanAccounts(reader: Reader, raws: seq<RawAccount>): seq<PlanAccount> {
    if raws == [] then []
    else
      (if raws[0].account.owner == reader.program && raws[0].account.body.Plan?
       then [PlanAccount(raws[0].pubkey, raws[0].account.body.planMint)] else [])
      + ToPlanAccounts(reader, raws[1..])
  }

  /** `plans` lists plans of the chain, all of `wanted` that are plans among them. */
  ghost predicate ArePlans(reader: Reader, chain: Chain, plans: seq<PlanAccount>, wanted: set<Address>) {
    && (forall i :: 0 <= i < |plans| ==>
          IsPlan(reader, chain, plans[i].address) && plans[i].mint == chain[plans[i].address].body.planMint)
    && (forall a :: a in wanted && IsPlan(reader, chain, a) ==>
          exists i :: 0 <= i < |plans| && plans[i].address == a)
  }

  lemma {:induction false} ToPlanAccountsHolds(reader: Reader, chain: Chain, raws: seq<RawAccount>)
    requires forall i :: 0 <= i < |raws| ==> raws[i].pubkey in chain && raws[i].account == chain[raws[i].pubkey]
    ensures ArePlans(reader, chain, ToPlanAccounts(reader, raws), set i | 0 <= i < |raws| :: raws[i].pubkey)
    decreases |raws|
  {
    if raws != [] {
      var rest := raws[1..];
      ToPlanAccountsHolds(reader, chain, rest);
      var plans, tail := ToPlanAccounts(reader, raws), ToPlanAccounts(reader, rest);
      var wanted := set i | 0 <= i < |raws| :: raws[i].pubkey;
      forall a | a in wanted && IsPlan(reader, chain, a)
        ensures exists i :: 0 <= i < |plans| && plans[i].address == a
      {
        var i :| 0 <= i < |raws| && raws[i].pubkey == a;
        if i == 0 {
          assert plans[0].address == a;
        } else {
          assert rest[i - 1].pubkey == a;
          var j :| 0 <= j < |tail| && tail[j].address == a;
          assert plans[if |plans| == |tail| then j else j + 1] == tail[j];
        }
      }
    }
  }

  lemma {:induction false} PlansAreFrom(reader: Reader, raws: seq<RawAccount>)
    ensures forall i :: 0 <= i < |ToPlanAccounts(reader, raws)| ==>
              exists k :: 0 <= k < |raws| && raws[k].pubkey == ToPlanAccounts(reader, raws)[i].address
    decreases |raws|
  {
    if raws == [] {
      assert ToPlanAccounts(reader, raws) == [];
    } else {
      PlansAreFrom(reader, raws[1..]);
      var plans, tail := ToPlanAccounts(reader, raws), ToPlanAccounts(reader, raws[1..]);
      forall i | 0 <= i < |plans| ensures exists k :: 0 <= k < |raws| && raws[k].pubkey == plans[i].address {
        var j := i - (|plans| - |tail|);
        if j < 0 {
          assert raws[0].pubkey == plans[i].address;
        } else {
          assert plans[i] == tail[j];
          var k :| 0 <= k < |raws[1..]| && raws[1..][k].pubkey == tail[j].address;
          assert raws[k + 1].pubkey == plans[i].address;
        }
      }
    }
  }

  /** The one plan whose derivation with one of `subscribers` gives `a`, if the chain holds it. */
  function Resolved(reader: Reader, chain: Chain, a: Address, subscribers: set<Address>): Option<PlanRef> {
    if a.SubscriptionPda? && a.subscriber in subscribers && IsPlan(reader, chain, a.plan)
    then Some(PlanRef(a.plan, chain[a.plan].body.planMint)) else None
  }

  function Lookup<V>(m: map<Address, V>, a: Address): Option<V> {
    if a in m then Some(m[a]) else None
  }

  /** Every reference held is the right one. */
  ghost predicate RefsSound(reader: Reader, chain: Chain, refs: map<Address, PlanRef>, subscribers: set<Address>) {
    forall a :: a in refs ==> Resolved(reader, chain, a, subscribers) == Some(refs[a])
  }

  method IndexPlans(reader: Reader, chain: Chain, refs: map<Address, PlanRef>,
                    plans: seq<PlanAccount>, subscribers: seq<Address>, ghost wanted: set<Address>)
    returns (r: map<Address, PlanRef>)
    requires ArePlans(reader, chain, plans, wanted)
    requires RefsSound(reader, chain, refs, Elements(subscribers))
    ensures RefsSound(reader, chain, r, Elements(subscribers))
    ensures refs.Keys <= r.Keys
    ensures forall a :: a in r && a !in refs ==>
              a.SubscriptionPda? && exists i :: 0 <= i < |plans| && plans[i].address == a.plan
    ensures forall p, s :: p in wanted && IsPlan(reader, chain, p) && s in subscribers ==> SubscriptionPda(p, s) in r
  {
    r := refs;
    for i := 0 to |plans|
      invariant RefsSound(reader, chain, r, Elements(subscribers)) && refs.Keys <= r.Keys
      invariant forall a :: a in r && a !in refs ==>
                  a.SubscriptionPda? && exists k :: 0 <= k < |plans| && plans[k].address == a.plan
      invariant forall k, s :: 0 <= k < i && s in subscribers ==> SubscriptionPda(plans[k].address, s) in r
    {
      ghost var before := r;
      for j := 0 to |subscribers|
        invariant RefsSound(reader, chain, r, Elements(subscribers)) && before.Keys <= r.Keys
        invariant forall a :: a in r && a !in before ==> a.SubscriptionPda? && a.plan == plans[i].address
        invariant forall m :: 0 <= m < j ==> SubscriptionPda(plans[i].address, subscribers[m]) in r
      {
        var derived := SubscriptionPda(plans[i].address, subscribers[j]);
        assert derived.subscriber in Elements(subscribers);
        r := r[derived := PlanRef(plans[i].address, plans[i].mint)];
      }
    }
    forall p, s | p in wanted && IsPlan(reader, chain, p) && s in subscribers ensures SubscriptionPda(p, s) in r {
      var k :| 0 <= k < |plans| && plans[k].address == p;
    }
  }

  function Elements<T>(s: seq<T>): set<T> {
    set x | x in s
  }

  /** All plans of the program, in whatever order the node lists them. */
  method ScanAllPlans(reader: Reader, chain: Chain) returns (plans: seq<PlanAccount>)
    ensures ArePlans(reader, chain, plans, chain.Keys)
  {
    plans := [];
    var rest := chain.Keys;
    while rest != {}
      invariant rest <= chain.Keys
      invariant ArePlans(reader, chain, plans, chain.Keys - rest)
    {
      var a :| a in rest;
      rest := rest - {a};
      if IsPlan(reader, chain, a) {
        ghost var was := plans;
        plans := plans + [PlanAccount(a, chain[a].body.planMint)];
        forall b | b in chain.Keys - rest && IsPlan(reader, chain, b)
          ensures exists i :: 0 <= i < |plans| && plans[i].address == b
        {
          if b == a { assert plans[|was|].address == b; }
          else {
            var i :| 0 <= i < |was| && was[i].address == b;
            assert plans[i].address == b;
          }
        }
      }
    }
  }

  function Subscribers(subscriptions: seq<SubscriptionAccount>): set<Address> {
    set i | 0 <= i < |subscriptions| :: subscriptions[i].subscriber
  }

  method DistinctOf(items: seq<Address>) returns (r: seq<Address>)
    ensures Elements(r) == Elements(items)
    ensures forall i, j :: 0 <= i < j < |r| ==> r[i] != r[j]
  {
    r := [];
    for i := 0 to |items|
      invariant Elements(r) == Elements(items[..i])
      invariant forall k, j :: 0 <= k < j < |r| ==> r[k] != r[j]
    {
      if items[i] !in r {
        assert items[i] !in Elements(r);
        ghost var was := r;
        r := r + [items[i]];
        assert Elements(r) == Elements(was) + {items[i]};
      }
      assert items[..i + 1] == items[..i] + [items[i]];
      assert Elements(items[..i + 1]) == Elements(items[..i]) + {items[i]};
    }
    assert items[..|items|] == items;
  }

  function Delegatees(subscriptions: seq<SubscriptionAccount>): set<Address> {
    set i | 0 <= i < |subscriptions| :: subscriptions[i].delegatee
  }

  /** What one address resolves to in a call for `subscriptions`: anything, or only what some `delegatee` names. */
  function Resolves(reader: Reader, chain: Chain, subscriptions: seq<SubscriptionAccount>,
                    a: Address, fullPlanScan: bool): Option<PlanRef>
  {
    var full := Resolved(reader, chain, a, Subscribers(subscriptions));
    if full.Some? && (fullPlanScan || a.plan in Delegatees(subscriptions)) then full else None
  }

  ghost predicate AllResolved(reader: Reader, chain: Chain, subscriptions: seq<SubscriptionAccount>,
                              refs: map<Address, PlanRef>, fullPlanScan: bool)
  {
    forall i :: 0 <= i < |subscriptions| ==>
      Lookup(refs, subscriptions[i].address)
      == Resolves(reader, chain, subscriptions, subscriptions[i].address, fullPlanScan)
  }

  /** The fast path: the plans the subscriptions point at, for all their subscribers. */
  method DirectPlanRefs(reader: Reader, chain: Chain, subscriptions: seq<SubscriptionAccount>,
                        subscribers: seq<Address>, candidates: seq<Address>)
    returns (refs: map<Address, PlanRef>)
    requires Elements(subscribers) == Subscribers(subscriptions)
    requires Elements(candidates) == Delegatees(subscriptions)
    ensures RefsSound(reader, chain, refs, Subscribers(subscriptions))
    ensures forall a :: Lookup(refs, a) == Resolves(reader, chain, subscriptions, a, false)
  {
    var raws := Present(chain, candidates);
    PresentHolds(chain, candidates);
    ghost var direct := set i | 0 <= i < |raws| :: raws[i].pubkey;
    ToPlanAccountsHolds(reader, chain, raws);
    PlansAreFrom(reader, raws);
    assert forall d :: d in direct ==> d in Elements(candidates);
    forall d | d in Elements(candidates) && d in chain ensures d in direct {
      assert RawAccount(d, chain[d]) in raws;
    }
    refs := IndexPlans(reader, chain, map[], ToPlanAccounts(reader, raws), subscribers, direct);
  }

  /** The distinct subscribers and the distinct plans pointed at. */
  method NamesOf(subscriptions: seq<SubscriptionAccount>) returns (subscribers: seq<Address>, candidates: seq<Address>)
    ensures Elements(subscribers) == Subscribers(subscriptions)
    ensures Elements(candidates) == Delegatees(subscriptions)
  {
    var named, pointed := [], [];
    for i := 0 to |subscriptions|
      invariant |named| == |pointed| == i
      invariant forall k :: 0 <= k < i ==>
                  named[k] == subscriptions[k].subscriber && pointed[k] == subscriptions[k].delegatee
    {
      named := named + [subscriptions[i].subscriber];
      pointed := pointed + [subscriptions[i].delegatee];
    }
    SameElements(subscriptions, named, pointed);
    subscribers := DistinctOf(named);
    candidates := DistinctOf(pointed);
  }

  lemma {:induction false} NothingToResolve(reader: Reader, chain: Chain, fullPlanScan: bool)
    ensures RefsSound(reader, chain, map[], Subscribers([])) && AllResolved(reader, chain, [], map[], fullPlanScan)
  {
  }

  /**
   * Whatever `delegatee` holds: with the full scan behind it, the direct lookup gives
   * every subscription the plan a scan of everything would, or none when there is none.
   * Without it, what is found is still right.
   */
  method ResolvePlanRefs(reader: Reader, chain: Chain, subscriptions: seq<SubscriptionAccount>, fullPlanScan: bool)
    returns (refs: map<Address, PlanRef>)
    ensures RefsSound(reader, chain, refs, Subscribers(subscriptions))
    ensures AllResolved(reader, chain, subscriptions, refs, fullPlanScan)
  {
    hide Subscribers, Delegatees, IsPlan, RefsSound;
    refs := map[];
    if subscriptions == [] {
      NothingToResolve(reader, chain, fullPlanScan);
      return;
    }
    var subscribers, candidates := NamesOf(subscriptions);
    refs := DirectPlanRefs(reader, chain, subscriptions, subscribers, candidates);

    var missing := false;
    for i := 0 to |subscriptions|
      invariant missing <==> exists k :: 0 <= k < i && subscriptions[k].address !in refs
    {
      if subscriptions[i].address !in refs { missing := true; }
    }
    if missing && fullPlanScan {
      var plans := ScanAllPlans(reader, chain);
      refs := IndexPlans(reader, chain, refs, plans, subscribers, chain.Keys);
      ScanFindsAll(reader, chain, subscriptions, refs);
    }
  }

  lemma {:induction false} ScanFindsAll(reader: Reader, chain: Chain, subscriptions: seq<SubscriptionAccount>,
                                        refs: map<Address, PlanRef>)
    requires RefsSound(reader, chain, refs, Subscribers(subscriptions))
    requires forall p, s :: p in chain.Keys && IsPlan(reader, chain, p) && s in Subscribers(subscriptions)
               ==> SubscriptionPda(p, s) in refs
    ensures AllResolved(reader, chain, subscriptions, refs, true)
  {
    forall i | 0 <= i < |subscriptions|
      ensures Lookup(refs, subscriptions[i].address)
              == Resolves(reader, chain, subscriptions, subscriptions[i].address, true)
    {
      var a := subscriptions[i].address;
      if Resolved(reader, chain, a, Subscribers(subscriptions)).Some? {
        assert SubscriptionPda(a.plan, a.subscriber) in refs;
      }
    }
  }

  lemma {:induction false} SameElements(subscriptions: seq<SubscriptionAccount>, named: seq<Address>, pointed: seq<Address>)
    requires |named| == |pointed| == |subscriptions|
    requires forall k :: 0 <= k < |named| ==>
               named[k] == subscriptions[k].subscriber && pointed[k] == subscriptions[k].delegatee
    ensures Elements(named) == Subscribers(subscriptions) && Elements(pointed) == Delegatees(subscriptions)
  {
    assert forall k :: 0 <= k < |named| ==> named[k] in named && pointed[k] in pointed;
  }

  /** With one wallet's subscriptions, "its own subscriber" is the only one there is. */
  lemma {:induction false} OneSubscriberResolvesItsOwn(reader: Reader, chain: Chain, subscriptions: seq<SubscriptionAccount>, i: nat)
    requires i < |subscriptions|
    requires forall k :: 0 <= k < |subscriptions| ==> subscriptions[k].subscriber == subscriptions[i].subscriber
    ensures Resolved(reader, chain, subscriptions[i].address, Subscribers(subscriptions))
            == Resolved(reader, chain, subscriptions[i].address, {subscriptions[i].subscriber})
  {
    assert Subscribers(subscriptions) == {subscriptions[i].subscriber};
  }

  /**
   * With several wallets in one call a subscription can be given a plan its own
   * subscriber does not derive it from: exactly when its address is derived from a
   * plan with another of the listed subscribers.
   */
  lemma {:induction false} MixedSubscribersResolveTheirOwnIff(reader: Reader, chain: Chain, subscriptions: seq<SubscriptionAccount>, i: nat)
    requires i < |subscriptions|
    ensures var entry := subscriptions[i];
            Resolved(reader, chain, entry.address, Subscribers(subscriptions))
            == Resolved(reader, chain, entry.address, {entry.subscriber})
            <==> !(entry.address.SubscriptionPda? && IsPlan(reader, chain, entry.address.plan)
                   && entry.address.subscriber != entry.subscriber
                   && entry.address.subscriber in Subscribers(subscriptions))
  {
    assert subscriptions[i].subscriber in Subscribers(subscriptions);
  }

  /** One plan and two wallets: the first entry's address derives with the second wallet, and is given the plan. */
  lemma {:induction false} MixedSubscribersCanDiffer(reader: Reader)
    ensures var plan, alice, bob, mint := Key(1), Key(2), Key(3), Key(4);
            var chain := map[plan := Account(reader.program, alice, bob, reader.version, 0, Active, true, Plan(mint))];
            var subscriptions := [SubscriptionAccount(SubscriptionPda(plan, bob), alice, plan),
                                  SubscriptionAccount(SubscriptionPda(plan, bob), bob, plan)];
            && Resolved(reader, chain, subscriptions[0].address, Subscribers(subscriptions)) == Some(PlanRef(plan, mint))
            && Resolved(reader, chain, subscriptions[0].address, {alice}) == None
  {
    var subscriptions := [SubscriptionAccount(SubscriptionPda(Key(1), Key(3)), Key(2), Key(1)),
                          SubscriptionAccount(SubscriptionPda(Key(1), Key(3)), Key(3), Key(1))];
    assert subscriptions[1].subscriber in Subscribers(subscriptions);
  }
}
