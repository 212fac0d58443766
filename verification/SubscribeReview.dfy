/**
 * Subscribing to a plan: the instructions built from the chain's plan, the terms read back
 * out of them for the screen, and the check between the click and the wallet.
 */
module SubscribeReview {
  import opened Shared

  const MAX_SAFE_INTEGER: int := 9007199254740991
  const SECONDS_PER_HOUR: int := 3600

  /** What the SDK fixes: our program, the sentinel id, and how addresses are derived. */
  datatype Sdk = Sdk(program: string, unknownInitId: int, planAt: (string, nat) -> string,
                     subscriptionAt: (string, string) -> string)

  datatype SubscribeData = SubscribeData(plan: string, merchant: string, subscriber: string, subscription: string,
                                         planId: nat, mint: string, amount: nat, periodHours: int, createdAt: int,
                                         initId: int)

  datatype Content =
    | InitAuthority(owner: string, tokenMint: string, tokenProgram: string, userAta: string)
    | Subscribe(data: SubscribeData)
    | Other
    | Unparsable

  datatype Instruction = Instruction(program: string, content: Content)

  datatype InitId = SameTransaction | Known(id: int)

  datatype Bounds = Bounds(plan: string, merchant: string, subscriber: string, subscription: string, planId: nat,
                           mint: string, amount: nat, periodHours: int, createdAt: int, initId: InitId,
                           initsAuthority: bool)

  datatype Error =
    | ForeignProgram | NoData | InitTwice | Unexpected | NoSubscribe | InitDisagrees
    | InitMismatch | PlanAddress | PlanClosed | MissingCreatedAt | OutOfRange

  // ---------------------------------------------------------------- reading the instructions

  function BoundsOf(d: SubscribeData, inits: bool): Bounds {
    Bounds(d.plan, d.merchant, d.subscriber, d.subscription, d.planId, d.mint, d.amount, d.periodHours, d.createdAt,
           if inits then SameTransaction else Known(d.initId), inits)
  }

  /** Exactly: an authority init, if the id is the sentinel, then one subscribe - all for our program. */
  ghost predicate IsSubscription(sdk: Sdk, instructions: seq<Instruction>, b: Bounds) {
    && 1 <= |instructions| <= 2
    && (forall i :: 0 <= i < |instructions| ==> instructions[i].program == sdk.program)
    && (|instructions| == 2 ==> instructions[0].content.InitAuthority?)
    && var last := instructions[|instructions| - 1].content;
       last.Subscribe? && (|instructions| == 2 <==> last.data.initId == sdk.unknownInitId)
       && b == BoundsOf(last.data, |instructions| == 2)
  }

  /** The reader's one pass: everything but that form is refused, and the form is read whole. */
  method ReadSubscribeBounds(sdk: Sdk, instructions: seq<Instruction>) returns (r: Result<Bounds, Error>)
    ensures r.Ok? ==> IsSubscription(sdk, instructions, r.value)
    ensures r.Err? ==> forall b :: !IsSubscription(sdk, instructions, b)
  {
    var initsAuthority := false;
    var subscribe: Option<SubscribeData> := None;
    for i := 0 to |instructions|
      invariant initsAuthority ==> 0 < i && instructions[0].content.InitAuthority?
      invariant subscribe.Some? ==> i > 0 && instructions[i - 1].content == Subscribe(subscribe.value)
      invariant i == (if initsAuthority then 1 else 0) + if subscribe.Some? then 1 else 0
      invariant forall k :: 0 <= k < i ==> instructions[k].program == sdk.program
    {
      var instruction := instructions[i];
      if instruction.program != sdk.program { return Err(ForeignProgram); }
      if instruction.content.Unparsable? { return Err(NoData); }
      if instruction.content.InitAuthority? && subscribe.None? {
        if initsAuthority { return Err(InitTwice); }
        initsAuthority := true;
        continue;
      }
      if instruction.content.Subscribe? && subscribe.None? {
        subscribe := Some(instruction.content.data);
        continue;
      }
      return Err(Unexpected);
    }
    if subscribe.None? { return Err(NoSubscribe); }
    var data := subscribe.value;
    if initsAuthority != (data.initId == sdk.unknownInitId) { return Err(InitDisagrees); }
    return Ok(BoundsOf(data, initsAuthority));
  }

  /** What is read back is the instruction's own data, field by field. */
  lemma {:induction false} BoundsAreTheData(sdk: Sdk, instructions: seq<Instruction>, b: Bounds)
    requires IsSubscription(sdk, instructions, b)
    ensures var d := instructions[|instructions| - 1].content.data;
            && b.plan == d.plan && b.merchant == d.merchant && b.subscriber == d.subscriber && b.subscription == d.subscription
            && b.planId == d.planId && b.mint == d.mint && b.amount == d.amount && b.periodHours == d.periodHours
            && b.createdAt == d.createdAt && b.initsAuthority == (|instructions| == 2)
            && b.initId == (if d.initId == sdk.unknownInitId then SameTransaction else Known(d.initId))
  {
  }

  // ---------------------------------------------------------------- building them

  /** Moments are milliseconds since the epoch. */
  datatype Plan = Plan(pda: string, owner: string, planId: nat, mint: string, amount: nat, periodHours: int,
                       createdAt: Option<int>, sunset: bool, endsAt: Option<int>)

  datatype InitAccounts = InitAccounts(tokenProgram: string, userAta: string)

  /** Whole seconds, and never the epoch itself: that reads as "not set". */
  function ToChainSeconds(millis: int): Result<int, Error> {
    if millis < 0 || millis / 1000 == 0 then Err(OutOfRange) else Ok(millis / 1000)
  }

  function BuildSubscribe(sdk: Sdk, plan: Plan, subscriber: string, initId: InitId, now: int): Result<Instruction, Error> {
    if sdk.planAt(plan.owner, plan.planId) != plan.pda then Err(PlanAddress)
    else if plan.sunset || (plan.endsAt.Some? && plan.endsAt.value <= now) then Err(PlanClosed)
    else if plan.createdAt.None? then Err(MissingCreatedAt)
    else
      match ToChainSeconds(plan.createdAt.value)
      case Err(e) => Err(e)
      case Ok(seconds) =>
        var pda := sdk.planAt(plan.owner, plan.planId);
        Ok(Instruction(sdk.program,
             Subscribe(SubscribeData(pda, plan.owner, subscriber, sdk.subscriptionAt(pda, subscriber), plan.planId,
                                     plan.mint, plan.amount, plan.periodHours, seconds,
                                     if initId.SameTransaction? then sdk.unknownInitId else initId.id))))
  }

  function BuildInstructions(sdk: Sdk, plan: Plan, subscriber: string, initId: InitId, init: Option<InitAccounts>, now: int)
    : Result<seq<Instruction>, Error>
  {
    if init.Some? != initId.SameTransaction? then Err(InitMismatch)
    else
      match BuildSubscribe(sdk, plan, subscriber, initId, now)
      case Err(e) => Err(e)
      case Ok(subscribe) =>
        Ok((if init.Some?
            then [Instruction(sdk.program, InitAuthority(subscriber, plan.mint, init.value.tokenProgram, init.value.userAta))]
            else []) + [subscribe])
  }

  /** What is built, field by field: the plan's own terms, and an authority only in the plan's mint and the subscriber's name. */
  lemma {:induction false} BuiltSays(sdk: Sdk, plan: Plan, subscriber: string, initId: InitId,
                                     init: Option<InitAccounts>, now: int)
    requires BuildInstructions(sdk, plan, subscriber, initId, init, now).Ok?
    ensures var built := BuildInstructions(sdk, plan, subscriber, initId, init, now).value;
            && |built| == (if init.Some? then 2 else 1) && (forall i :: 0 <= i < |built| ==> built[i].program == sdk.program)
            && (init.Some? ==>
                  built[0].content == InitAuthority(subscriber, plan.mint, init.value.tokenProgram, init.value.userAta))
            && built[|built| - 1].content.Subscribe? && plan.createdAt.Some?
            && var d := built[|built| - 1].content.data;
               && d.plan == plan.pda && d.merchant == plan.owner && d.subscriber == subscriber
               && d.subscription == sdk.subscriptionAt(plan.pda, subscriber) && d.planId == plan.planId
               && d.mint == plan.mint && d.amount == plan.amount && d.periodHours == plan.periodHours
               && d.createdAt * 1000 <= plan.createdAt.value < d.createdAt * 1000 + 1000
               && d.initId == (if initId.Known? then initId.id else sdk.unknownInitId)
  {
  }

  /** When nothing is built, and why. */
  lemma {:induction false} BuildFails(sdk: Sdk, plan: Plan, subscriber: string, initId: InitId,
                                      init: Option<InitAccounts>, now: int)
    ensures var r := BuildInstructions(sdk, plan, subscriber, initId, init, now);
            && (r == Err(InitMismatch) <==> init.Some? != initId.SameTransaction?)
            && (r.Ok? <==>
                  && init.Some? == initId.SameTransaction? && sdk.planAt(plan.owner, plan.planId) == plan.pda
                  && !plan.sunset && (plan.endsAt.Some? ==> now < plan.endsAt.value)
                  && plan.createdAt.Some? && 1000 <= plan.createdAt.value)
            && (r.Err? && r.error != InitMismatch ==>
                  r.error == if sdk.planAt(plan.owner, plan.planId) != plan.pda then PlanAddress
                             else if plan.sunset || (plan.endsAt.Some? && plan.endsAt.value <= now) then PlanClosed
                             else if plan.createdAt.None? then MissingCreatedAt else OutOfRange)
  {
  }

  /** The one subscription the plan's terms stand for. */
  function Promised(sdk: Sdk, plan: Plan, subscriber: string, initId: InitId): Bounds
    requires plan.createdAt.Some?
  {
    Bounds(plan.pda, plan.owner, subscriber, sdk.subscriptionAt(plan.pda, subscriber), plan.planId, plan.mint, plan.amount,
           plan.periodHours, plan.createdAt.value / 1000, initId, initId.SameTransaction?)
  }

  /**
   * What is built reads back as the plan's own terms, for every plan - unless a known
   * authority id happens to be the sentinel, and then it is refused, never misread.
   */
  lemma {:induction false} BuiltReadsBackIff(sdk: Sdk, plan: Plan, subscriber: string, initId: InitId,
                                             init: Option<InitAccounts>, now: int)
    requires BuildInstructions(sdk, plan, subscriber, initId, init, now).Ok?
    ensures plan.createdAt.Some?
    ensures forall b :: IsSubscription(sdk, BuildInstructions(sdk, plan, subscriber, initId, init, now).value, b) <==>
              b == Promised(sdk, plan, subscriber, initId) && initId != Known(sdk.unknownInitId)
  {
  }

  // ---------------------------------------------------------------- the screen's model

  datatype Terms = Terms(mint: string, amount: nat, periodSeconds: int, createdAt: Option<int>)

  datatype TermField = MintField | AmountField | PeriodField | CreatedAtField

  function Divergence(asked: Terms, actual: Terms): seq<TermField> {
    (if asked.mint != actual.mint then [MintField] else [])
    + (if asked.amount != actual.amount then [AmountField] else [])
    + (if asked.periodSeconds != actual.periodSeconds then [PeriodField] else [])
    + (if asked.createdAt != actual.createdAt then [CreatedAtField] else [])
  }

  /** The fields named are exactly those that differ, each once. */
  lemma {:induction false} DivergenceIs(asked: Terms, actual: Terms)
    ensures var fields := Divergence(asked, actual);
            && (fields == [] <==> asked == actual)
            && (MintField in fields <==> asked.mint != actual.mint)
            && (AmountField in fields <==> asked.amount != actual.amount)
            && (PeriodField in fields <==> asked.periodSeconds != actual.periodSeconds)
            && (CreatedAtField in fields <==> asked.createdAt != actual.createdAt)
            && forall i, j :: 0 <= i < j < |fields| ==> fields[i] != fields[j]
  {
  }

  /** The decoded terms as the catalog writes them. */
  function AsTerms(b: Bounds): Result<Terms, Error> {
    if b.createdAt == 0 then Err(MissingCreatedAt)
    else if b.createdAt < 0 || b.createdAt * 1000 > MAX_SAFE_INTEGER then Err(OutOfRange)
    else if b.periodHours <= 0 || b.periodHours > MAX_SAFE_INTEGER then Err(OutOfRange)
    else Ok(Terms(b.mint, b.amount, b.periodHours * SECONDS_PER_HOUR, Some(b.createdAt * 1000)))
  }

  datatype ChainPlan = ChainPlan(pda: string, merchant: string, planId: nat, terms: Terms, sunset: bool,
                                 endsAt: Option<int>, destinations: seq<string>, pullers: seq<string>)

  datatype Subscriber = Subscriber(address: string, subscribed: bool, authorityInitId: Option<int>,
                                   tokenAccountExists: bool, accounts: InitAccounts)

  datatype View = View(chain: ChainPlan, subscriber: Option<Subscriber>, listed: Option<Terms>)

  datatype Block = Sunset | Ended | NoCreatedAt | NoWallet | Subscribed | NoTokenAccount | BuilderMismatch(fields: seq<TermField>)

  datatype Transaction = Transaction(instructions: seq<Instruction>, bounds: Bounds)

  datatype Review = Review(shown: Terms, mismatch: seq<TermField>, pullers: seq<string>, endsAt: Option<int>,
                           destinations: seq<string>, transaction: Option<Transaction>, blocked: Option<Block>)

  function BlockFor(v: View, now: int): Option<Block> {
    var c := v.chain;
    if c.sunset then Some(Sunset)
    else if c.endsAt.Some? && c.endsAt.value <= now then Some(Ended)
    else if c.terms.createdAt.None? then Some(NoCreatedAt)
    else if v.subscriber.None? then Some(NoWallet)
    else if v.subscriber.value.subscribed then Some(Subscribed)
    else if v.subscriber.value.authorityInitId.None? && !v.subscriber.value.tokenAccountExists then Some(NoTokenAccount)
    else None
  }

  /** What stops a subscription: a reason that applies, and of those the one to hear first. */
  ghost predicate Applies(v: View, now: int, b: Block) {
    match b
    case Sunset => v.chain.sunset
    case Ended => v.chain.endsAt.Some? && v.chain.endsAt.value <= now
    case NoCreatedAt => v.chain.terms.createdAt.None?
    case NoWallet => v.subscriber.None?
    case Subscribed => v.subscriber.Some? && v.subscriber.value.subscribed
    case NoTokenAccount =>
      v.subscriber.Some? && v.subscriber.value.authorityInitId.None? && !v.subscriber.value.tokenAccountExists
    case BuilderMismatch(_) => false
  }

  lemma {:induction false} BlockForSays(v: View, now: int)
    ensures var reasons := [Sunset, Ended, NoCreatedAt, NoWallet, Subscribed, NoTokenAccount];
            && (BlockFor(v, now).None? <==> forall b :: !Applies(v, now, b))
            && (BlockFor(v, now).Some? ==>
                  exists i :: 0 <= i < |reasons| && BlockFor(v, now).value == reasons[i] && Applies(v, now, reasons[i])
                              && forall j :: 0 <= j < i ==> !Applies(v, now, reasons[j]))
  {
    var reasons := [Sunset, Ended, NoCreatedAt, NoWallet, Subscribed, NoTokenAccount];
    assert forall i :: 0 <= i < |reasons| ==> (Applies(v, now, reasons[i]) ==> BlockFor(v, now).Some?);
    assert forall i :: 0 <= i < |reasons| && BlockFor(v, now) == Some(reasons[i]) ==>
             Applies(v, now, reasons[i]) && forall j :: 0 <= j < i ==> !Applies(v, now, reasons[j]);
    assert BlockFor(v, now).Some? ==> exists i :: 0 <= i < |reasons| && BlockFor(v, now).value == reasons[i] by {
      assert reasons[0] == Sunset && reasons[1] == Ended && reasons[2] == NoCreatedAt && reasons[3] == NoWallet
             && reasons[4] == Subscribed && reasons[5] == NoTokenAccount;
    }
  }

  /** A period that is not a whole number of hours is no plan's. */
  function PlanFrom(c: ChainPlan): Result<Plan, Error> {
    if c.terms.periodSeconds <= 0 || c.terms.periodSeconds > MAX_SAFE_INTEGER || c.terms.periodSeconds % SECONDS_PER_HOUR != 0
    then Err(OutOfRange)
    else Ok(Plan(c.pda, c.merchant, c.planId, c.terms.mint, c.terms.amount, c.terms.periodSeconds / SECONDS_PER_HOUR,
                 c.terms.createdAt, c.sunset, c.endsAt))
  }

  function InitIdOf(s: Subscriber): InitId {
    if s.authorityInitId.None? then SameTransaction else Known(s.authorityInitId.value)
  }

  function BuildFor(sdk: Sdk, v: View, now: int): Result<seq<Instruction>, Error>
    requires v.subscriber.Some?
  {
    var s := v.subscriber.value;
    match PlanFrom(v.chain)
    case Err(e) => Err(e)
    case Ok(plan) =>
      BuildInstructions(sdk, plan, s.address, InitIdOf(s),
                        if s.authorityInitId.None? then Some(s.accounts) else None, now)
  }

  /** A review of `v`: its terms are the transaction's when there is one, the network's when there is not. */
  method ReviewSubscription(sdk: Sdk, v: View, now: int) returns (r: Result<Review, Error>)
    ensures r.Ok? ==> IsReview(sdk, v, now, r.value)
    ensures r.Err? <==> BlockFor(v, now).None? && !CanBeBuilt(sdk, v.chain, v.subscriber)
  {
    var blocked := BlockFor(v, now);
    var transaction: Option<Transaction> := None;
    var shown := v.chain.terms;
    if blocked.None? {
      var built := BuildFor(sdk, v, now);
      if built.Err? { return Err(built.error); }
      var bounds := ReadSubscribeBounds(sdk, built.value);
      if bounds.Err? {
        OnlyTheSentinelIsRefused(sdk, v, now);
        return Err(bounds.error);
      }
      var signed := AsTerms(bounds.value);
      if signed.Err? { return Err(signed.error); }
      var drift := Divergence(v.chain.terms, signed.value);
      if drift != [] {
        blocked := Some(BuilderMismatch(drift));
        DriftIsSubSecond(sdk, v, now, bounds.value, signed.value);
      } else {
        transaction, shown := Some(Transaction(built.value, bounds.value)), signed.value;
      }
    }
    r := Ok(Review(shown, if v.listed.None? then [] else Divergence(v.listed.value, shown), v.chain.pullers,
                   v.chain.endsAt, v.chain.destinations, transaction, blocked));
  }

  /** What the builder demands beyond what the screen checks first. */
  predicate CanBeBuilt(sdk: Sdk, c: ChainPlan, s: Option<Subscriber>) {
    && sdk.planAt(c.merchant, c.planId) == c.pda
    && 0 < c.terms.periodSeconds <= MAX_SAFE_INTEGER && c.terms.periodSeconds % SECONDS_PER_HOUR == 0
    && c.terms.createdAt.Some? && 1000 <= c.terms.createdAt.value
    && c.terms.createdAt.value - c.terms.createdAt.value % 1000 <= MAX_SAFE_INTEGER
    && s.Some? && s.value.authorityInitId != Some(sdk.unknownInitId)
  }

  /**
   * What a review says of its view. A transaction is offered only with terms, decoded from
   * its own instructions, that equal the chain's; and the only way for the builder to
   * disagree with the chain is a creation time with a part of a second.
   */
  ghost predicate IsReview(sdk: Sdk, v: View, now: int, r: Review) {
    && r.pullers == v.chain.pullers && r.endsAt == v.chain.endsAt && r.destinations == v.chain.destinations
    && r.shown == v.chain.terms
    && r.mismatch == (if v.listed.None? then [] else Divergence(v.listed.value, r.shown))
    && (r.transaction.Some? <==> r.blocked.None?)
    && (BlockFor(v, now).Some? ==> r.blocked == BlockFor(v, now))
    && (BlockFor(v, now).None? ==>
          && v.subscriber.Some? && v.chain.terms.createdAt.Some?
          && (r.blocked.Some? <==> v.chain.terms.createdAt.value % 1000 != 0)
          && (r.blocked.Some? ==> r.blocked == Some(BuilderMismatch([CreatedAtField]))))
    && (r.transaction.Some? ==> IsOffer(sdk, v, now, r.transaction.value))
  }

  /** The transaction is the one built for this view, and says nothing but the chain's terms. */
  ghost predicate IsOffer(sdk: Sdk, v: View, now: int, t: Transaction) {
    && v.subscriber.Some?
    && BuildFor(sdk, v, now) == Ok(t.instructions)
    && IsSubscription(sdk, t.instructions, t.bounds)
    && AsTerms(t.bounds) == Ok(v.chain.terms)
    && t.bounds.plan == v.chain.pda && t.bounds.merchant == v.chain.merchant
    && t.bounds.subscriber == v.subscriber.value.address
    && t.bounds.initsAuthority == v.subscriber.value.authorityInitId.None?
  }

  /** The offer in the network's own terms: seconds against hours, milliseconds against seconds. */
  lemma {:induction false} OfferIsTheChains(sdk: Sdk, v: View, now: int, r: Review)
    requires IsReview(sdk, v, now, r) && r.transaction.Some?
    ensures var b := r.transaction.value.bounds;
            && v.subscriber.Some? && v.chain.terms.createdAt.Some?
            && b.plan == v.chain.pda && b.merchant == v.chain.merchant && b.subscriber == v.subscriber.value.address
            && b.subscription == sdk.subscriptionAt(v.chain.pda, v.subscriber.value.address) && b.planId == v.chain.planId
            && b.mint == v.chain.terms.mint && b.amount == v.chain.terms.amount
            && b.periodHours * 3600 == v.chain.terms.periodSeconds && b.createdAt * 1000 == v.chain.terms.createdAt.value
            && b.initId == (if v.subscriber.value.authorityInitId.None? then SameTransaction
                            else Known(v.subscriber.value.authorityInitId.value))
            && r.shown == v.chain.terms && forall block :: !Applies(v, now, block)
  {
  }

  lemma {:induction false} OnlyTheSentinelIsRefused(sdk: Sdk, v: View, now: int)
    requires v.subscriber.Some? && BuildFor(sdk, v, now).Ok?
    requires forall b :: !IsSubscription(sdk, BuildFor(sdk, v, now).value, b)
    ensures v.subscriber.value.authorityInitId == Some(sdk.unknownInitId)
  {
    var plan, s := PlanFrom(v.chain).value, v.subscriber.value;
    BuiltReadsBackIff(sdk, plan, s.address, InitIdOf(s), if s.authorityInitId.None? then Some(s.accounts) else None, now);
    assert !IsSubscription(sdk, BuildFor(sdk, v, now).value, Promised(sdk, plan, s.address, InitIdOf(s)));
  }

  lemma {:induction false} DriftIsSubSecond(sdk: Sdk, v: View, now: int, b: Bounds, signed: Terms)
    requires BlockFor(v, now).None? && BuildFor(sdk, v, now).Ok?
    requires IsSubscription(sdk, BuildFor(sdk, v, now).value, b) && AsTerms(b) == Ok(signed)
    ensures v.chain.terms.createdAt.Some?
    ensures Divergence(v.chain.terms, signed) == if v.chain.terms.createdAt.value % 1000 != 0 then [CreatedAtField] else []
    ensures b.plan == v.chain.pda && b.merchant == v.chain.merchant && b.subscriber == v.subscriber.value.address
    ensures b.initsAuthority == v.subscriber.value.authorityInitId.None?
  {
  }

  // ---------------------------------------------------------------- between the click and the wallet

  datatype Recheck = Same(transaction: Transaction) | Missing | IsBlocked(block: Block) | Changed

  function RecheckOffer(shown: Review, latest: Option<Review>): Recheck {
    if latest.None? then Missing
    else if latest.value.blocked.Some? then IsBlocked(latest.value.blocked.value)
    else if shown.transaction.None? || latest.value.transaction.None? then Changed
    else if shown.transaction.value.bounds != latest.value.transaction.value.bounds
            || shown.pullers != latest.value.pullers || shown.destinations != latest.value.destinations
            || shown.endsAt != latest.value.endsAt
    then Changed
    else Same(shown.transaction.value)
  }

  /** What a person is told between the click and the wallet, for every fresh reading - or none, when the plan is gone. */
  lemma {:induction false} RecheckSays(shown: Review, latest: Option<Review>)
    ensures RecheckOffer(shown, latest) == Missing <==> latest == None
    ensures forall block :: RecheckOffer(shown, latest) == IsBlocked(block) <==> latest.Some? && latest.value.blocked == Some(block)
    ensures RecheckOffer(shown, latest).Same? <==>
              && latest.Some? && latest.value.blocked.None? && shown.transaction.Some? && latest.value.transaction.Some?
              && shown.transaction.value.bounds == latest.value.transaction.value.bounds
              && shown.pullers == latest.value.pullers && shown.destinations == latest.value.destinations
              && shown.endsAt == latest.value.endsAt
    ensures RecheckOffer(shown, latest).Same? ==> RecheckOffer(shown, latest).transaction == shown.transaction.value
  {
  }

  /**
   * What was shown is what is signed: `same` hands over the transaction of the screen, and
   * only when a fresh reading is there and offers the same subscribe instruction, with the
   * same terms, the same pullers, destinations and end - and so with nothing new to show.
   */
  lemma {:induction false} SameIsTheShownOffer(sdk: Sdk, before: View, earlier: int, shown: Review,
                                               after: View, now: int, latest: Option<Review>)
    requires IsReview(sdk, before, earlier, shown) && (latest.Some? ==> IsReview(sdk, after, now, latest.value))
    ensures RecheckOffer(shown, latest).Same? <==>
              (latest.Some? && shown.transaction.Some? && latest.value.transaction.Some?
               && shown.transaction.value.bounds == latest.value.transaction.value.bounds
               && before.chain.pullers == after.chain.pullers && before.chain.destinations == after.chain.destinations
               && before.chain.endsAt == after.chain.endsAt)
    ensures RecheckOffer(shown, latest).Same? ==>
              && RecheckOffer(shown, latest).transaction == shown.transaction.value
              && before.chain == after.chain && shown.shown == latest.value.shown
              && (var a, b := shown.transaction.value.instructions, latest.value.transaction.value.instructions;
                  |a| == |b| && a[|a| - 1] == b[|b| - 1])
  {
  }
}
