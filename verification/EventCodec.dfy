/**
 * The bytes of the program's events: an 8-byte tag, a discriminator, and a packed struct.
 */
module EventCodec {
  type byte = x: int | 0 <= x < 256
  type u64 = x: int | 0 <= x < 0x1_0000_0000_0000_0000
  type i64 = x: int | -0x8000_0000_0000_0000 <= x < 0x8000_0000_0000_0000
  type Address = s: seq<byte> | |s| == 32 witness seq(32, _ => 0)
  /** Always four slots; unused ones hold the default address. */
  type Pullers = s: seq<Address> | |s| == 4 witness [DefaultAddress(), DefaultAddress(), DefaultAddress(), DefaultAddress()]

  function DefaultAddress(): Address {
    seq(32, _ => 0)
  }

  const TAG: seq<byte> := [0xe4, 0x45, 0xa5, 0x2e, 0x51, 0xcb, 0x9a, 0x1d]
  const HEADER_SIZE: nat := 9

  datatype ProgramEvent =
    | SubscriptionCreated(plan: Address, subscriber: Address, mint: Address, createdTs: i64, payer: Address)
    | SubscriptionCancelled(plan: Address, subscriber: Address, expiresAtTs: i64)
    | SubscriptionTransfer(subscription: Address, plan: Address, delegator: Address, mint: Address, amount: u64,
                           periodStartTs: i64, periodEndTs: i64, amountPulledInPeriod: u64, receiver: Address,
                           receiverTokenAccount: Address, puller: Address)
    | FixedTransfer(delegation: Address, delegator: Address, delegatee: Address, mint: Address, amount: u64,
                    remainingAmount: u64, receiver: Address, receiverTokenAccount: Address)
    | RecurringTransfer(delegation: Address, delegator: Address, delegatee: Address, mint: Address, amount: u64,
                        periodStartTs: i64, periodEndTs: i64, amountPulledInPeriod: u64, receiver: Address,
                        receiverTokenAccount: Address)
    | SubscriptionResumed(plan: Address, subscriber: Address, resumedTs: i64)
    | PlanUpdated(plan: Address, owner: Address, status: byte, endTs: i64, pullers: Pullers)

  // ---------------------------------------------------------------- numbers

  function Pow256(width: nat): nat {
    if width == 0 then 1 else 256 * Pow256(width - 1)
  }

  function ToLE(n: nat, width: nat): (b: seq<byte>)
    ensures |b| == width
  {
    if width == 0 then [] else [n % 256] + ToLE(n / 256, width - 1)
  }

  function FromLE(b: seq<byte>): nat {
    if b == [] then 0 else b[0] + 256 * FromLE(b[1..])
  }

  lemma {:induction false} NumberRoundTrip(n: nat, width: nat)
    requires n < Pow256(width)
    ensures FromLE(ToLE(n, width)) == n
    decreases width
  {
    if width > 0 {
      NumberRoundTrip(n / 256, width - 1);
      assert ToLE(n, width)[1..] == ToLE(n / 256, width - 1);
    }
  }

  lemma {:induction false} Digit(low: byte, high: nat, bound: nat)
    requires high < bound
    ensures (low + 256 * high) % 256 == low && (low + 256 * high) / 256 == high && low + 256 * high < 256 * bound
  {
  }

  lemma {:induction false} BytesRoundTrip(b: seq<byte>)
    ensures FromLE(b) < Pow256(|b|) && ToLE(FromLE(b), |b|) == b
    decreases |b|
  {
    if b != [] {
      BytesRoundTrip(b[1..]);
      Digit(b[0], FromLE(b[1..]), Pow256(|b| - 1));
      assert b == [b[0]] + b[1..];
    }
  }

  /** Two's complement. */
  function ToUnsigned(x: i64): u64 {
    if x < 0 then x + 0x1_0000_0000_0000_0000 else x
  }

  function ToSigned(x: u64): i64 {
    if x >= 0x8000_0000_0000_0000 then x - 0x1_0000_0000_0000_0000 else x
  }

  lemma {:induction false} Width8()
    ensures Pow256(8) == 0x1_0000_0000_0000_0000
  {
    assert Pow256(4) == 0x1_0000_0000;
    assert Pow256(8) == 256 * 256 * 256 * 256 * Pow256(4) by {
      assert Pow256(8) == 256 * Pow256(7) && Pow256(7) == 256 * Pow256(6) && Pow256(6) == 256 * Pow256(5);
    }
  }

  // ---------------------------------------------------------------- structs

  datatype Field = AddressField | U64Field | I64Field | U8Field

  datatype Value = AddressValue(address: Address) | U64Value(u: u64) | I64Value(i: i64) | U8Value(b: byte)

  function Size(f: Field): nat {
    match f
    case AddressField => 32
    case U64Field => 8
    case I64Field => 8
    case U8Field => 1
  }

  predicate Fits(f: Field, v: Value) {
    match f
    case AddressField => v.AddressValue?
    case U64Field => v.U64Value?
    case I64Field => v.I64Value?
    case U8Field => v.U8Value?
  }

  function EncodeValue(v: Value): seq<byte> {
    match v
    case AddressValue(a) => a
    case U64Value(u) => ToLE(u, 8)
    case I64Value(i) => ToLE(ToUnsigned(i), 8)
    case U8Value(b) => [b]
  }

  function DecodeValue(f: Field, b: seq<byte>): (v: Value)
    requires |b| == Size(f)
    ensures Fits(f, v)
  {
    match f
    case AddressField => AddressValue(b)
    case U64Field => U64OfBytes(b); U64Value(FromLE(b))
    case I64Field => U64OfBytes(b); I64Value(ToSigned(FromLE(b)))
    case U8Field => U8Value(b[0])
  }

  lemma {:induction false} U64OfBytes(b: seq<byte>)
    requires |b| == 8
    ensures FromLE(b) < 0x1_0000_0000_0000_0000
  {
    BytesRoundTrip(b);
    Width8();
  }

  lemma {:induction false} ValueRoundTrip(f: Field, v: Value)
    requires Fits(f, v)
    ensures |EncodeValue(v)| == Size(f) && DecodeValue(f, EncodeValue(v)) == v
  {
    Width8();
    match v
    case U64Value(u) => NumberRoundTrip(u, 8);
    case I64Value(i) => NumberRoundTrip(ToUnsigned(i), 8);
    case _ =>
  }

  lemma {:induction false} FieldRoundTrip(f: Field, b: seq<byte>)
    requires |b| == Size(f)
    ensures EncodeValue(DecodeValue(f, b)) == b
  {
    if f.U64Field? || f.I64Field? {
      BytesRoundTrip(b);
      U64OfBytes(b);
    }
  }

  function SizeOf(layout: seq<Field>): nat {
    if layout == [] then 0 else Size(layout[0]) + SizeOf(layout[1..])
  }

  predicate AllFit(layout: seq<Field>, values: seq<Value>) {
    |layout| == |values| && forall i :: 0 <= i < |layout| ==> Fits(layout[i], values[i])
  }

  function EncodeAll(values: seq<Value>): seq<byte> {
    if values == [] then [] else EncodeValue(values[0]) + EncodeAll(values[1..])
  }

  function DecodeAll(layout: seq<Field>, b: seq<byte>): (values: seq<Value>)
    requires |b| == SizeOf(layout)
    ensures AllFit(layout, values)
    decreases |layout|
  {
    if layout == [] then []
    else [DecodeValue(layout[0], b[..Size(layout[0])])] + DecodeAll(layout[1..], b[Size(layout[0])..])
  }

  lemma {:induction false} StructRoundTrip(layout: seq<Field>, values: seq<Value>)
    requires AllFit(layout, values)
    ensures |EncodeAll(values)| == SizeOf(layout) && DecodeAll(layout, EncodeAll(values)) == values
    decreases |layout|
  {
    if layout != [] {
      var first := EncodeValue(values[0]);
      ValueRoundTrip(layout[0], values[0]);
      StructRoundTrip(layout[1..], values[1..]);
      var all := EncodeAll(values);
      assert all == first + EncodeAll(values[1..]);
      assert all[..Size(layout[0])] == first && all[Size(layout[0])..] == EncodeAll(values[1..]);
      assert values == [values[0]] + values[1..];
    }
  }

  lemma {:induction false} LayoutRoundTrip(layout: seq<Field>, b: seq<byte>)
    requires |b| == SizeOf(layout)
    ensures EncodeAll(DecodeAll(layout, b)) == b
    decreases |layout|
  {
    if layout != [] {
      var n := Size(layout[0]);
      FieldRoundTrip(layout[0], b[..n]);
      LayoutRoundTrip(layout[1..], b[n..]);
      var values := DecodeAll(layout, b);
      assert values[1..] == DecodeAll(layout[1..], b[n..]);
      assert b == b[..n] + b[n..];
    }
  }

  // ---------------------------------------------------------------- the seven layouts

  datatype EventType = CreatedType | CancelledType | TransferType | FixedType | RecurringType | ResumedType | UpdatedType

  const TYPES: seq<EventType> :=
    [CreatedType, CancelledType, TransferType, FixedType, RecurringType, ResumedType, UpdatedType]

  function TypeOf(e: ProgramEvent): EventType {
    match e
    case SubscriptionCreated(_, _, _, _, _) => CreatedType
    case SubscriptionCancelled(_, _, _) => CancelledType
    case SubscriptionTransfer(_, _, _, _, _, _, _, _, _, _, _) => TransferType
    case FixedTransfer(_, _, _, _, _, _, _, _) => FixedType
    case RecurringTransfer(_, _, _, _, _, _, _, _, _, _) => RecurringType
    case SubscriptionResumed(_, _, _) => ResumedType
    case PlanUpdated(_, _, _, _, _) => UpdatedType
  }

  function Discriminator(t: EventType): (d: byte)
    ensures d < |TYPES| && TYPES[d] == t
  {
    match t
    case CreatedType => 0
    case CancelledType => 1
    case TransferType => 2
    case FixedType => 3
    case RecurringType => 4
    case ResumedType => 5
    case UpdatedType => 6
  }

  function Layout(t: EventType): seq<Field> {
    match t
    case CreatedType => [AddressField, AddressField, AddressField, I64Field, AddressField]
    case CancelledType => [AddressField, AddressField, I64Field]
    case TransferType =>
      [AddressField, AddressField, AddressField, AddressField, U64Field, I64Field, I64Field, U64Field,
       AddressField, AddressField, AddressField]
    case FixedType =>
      [AddressField, AddressField, AddressField, AddressField, U64Field, U64Field, AddressField, AddressField]
    case RecurringType =>
      [AddressField, AddressField, AddressField, AddressField, U64Field, I64Field, I64Field, U64Field,
       AddressField, AddressField]
    case ResumedType => [AddressField, AddressField, I64Field]
    case UpdatedType =>
      [AddressField, AddressField, U8Field, I64Field, AddressField, AddressField, AddressField, AddressField]
  }

  function ValuesOf(e: ProgramEvent): seq<Value> {
    match e
    case SubscriptionCreated(plan, subscriber, mint, createdTs, payer) =>
      [AddressValue(plan), AddressValue(subscriber), AddressValue(mint), I64Value(createdTs), AddressValue(payer)]
    case SubscriptionCancelled(plan, subscriber, expiresAtTs) =>
      [AddressValue(plan), AddressValue(subscriber), I64Value(expiresAtTs)]
    case SubscriptionTransfer(subscription, plan, delegator, mint, amount, startTs, endTs, pulled, receiver, account, puller) =>
      [AddressValue(subscription), AddressValue(plan), AddressValue(delegator), AddressValue(mint), U64Value(amount),
       I64Value(startTs), I64Value(endTs), U64Value(pulled), AddressValue(receiver), AddressValue(account),
       AddressValue(puller)]
    case FixedTransfer(delegation, delegator, delegatee, mint, amount, remaining, receiver, account) =>
      [AddressValue(delegation), AddressValue(delegator), AddressValue(delegatee), AddressValue(mint),
       U64Value(amount), U64Value(remaining), AddressValue(receiver), AddressValue(account)]
    case RecurringTransfer(delegation, delegator, delegatee, mint, amount, startTs, endTs, pulled, receiver, account) =>
      [AddressValue(delegation), AddressValue(delegator), AddressValue(delegatee), AddressValue(mint), U64Value(amount),
       I64Value(startTs), I64Value(endTs), U64Value(pulled), AddressValue(receiver), AddressValue(account)]
    case SubscriptionResumed(plan, subscriber, resumedTs) =>
      [AddressValue(plan), AddressValue(subscriber), I64Value(resumedTs)]
    case PlanUpdated(plan, owner, status, endTs, pullers) =>
      [AddressValue(plan), AddressValue(owner), U8Value(status), I64Value(endTs),
       AddressValue(pullers[0]), AddressValue(pullers[1]), AddressValue(pullers[2]), AddressValue(pullers[3])]
  }

  function EventOf(t: EventType, v: seq<Value>): ProgramEvent
    requires AllFit(Layout(t), v)
  {
    match t
    case CreatedType => SubscriptionCreated(v[0].address, v[1].address, v[2].address, v[3].i, v[4].address)
    case CancelledType => SubscriptionCancelled(v[0].address, v[1].address, v[2].i)
    case TransferType =>
      SubscriptionTransfer(v[0].address, v[1].address, v[2].address, v[3].address, v[4].u, v[5].i, v[6].i, v[7].u,
                           v[8].address, v[9].address, v[10].address)
    case FixedType =>
      FixedTransfer(v[0].address, v[1].address, v[2].address, v[3].address, v[4].u, v[5].u, v[6].address, v[7].address)
    case RecurringType =>
      RecurringTransfer(v[0].address, v[1].address, v[2].address, v[3].address, v[4].u, v[5].i, v[6].i, v[7].u,
                        v[8].address, v[9].address)
    case ResumedType => SubscriptionResumed(v[0].address, v[1].address, v[2].i)
    case UpdatedType =>
      PlanUpdated(v[0].address, v[1].address, v[2].b, v[3].i, [v[4].address, v[5].address, v[6].address, v[7].address])
  }

  lemma {:induction false} FieldsRoundTrip(e: ProgramEvent)
    ensures AllFit(Layout(TypeOf(e)), ValuesOf(e)) && EventOf(TypeOf(e), ValuesOf(e)) == e
  {
  }

  lemma {:induction false} ValuesRoundTrip(t: EventType, v: seq<Value>)
    requires AllFit(Layout(t), v)
    ensures TypeOf(EventOf(t, v)) == t && ValuesOf(EventOf(t, v)) == v
  {
  }

  // ---------------------------------------------------------------- instruction data

  datatype Unreadable = UnknownType(discriminator: byte) | Length(eventType: EventType, expected: nat, actual: nat)

  datatype ReadResult = IsEvent(event: ProgramEvent) | NotAnEvent | IsUnreadable(why: Unreadable)

  predicate StartsWithTag(data: seq<byte>) {
    |data| >= HEADER_SIZE && data[..8] == TAG
  }

  function Read(data: seq<byte>): ReadResult {
    if !StartsWithTag(data) then NotAnEvent
    else
      var discriminator := data[8];
      if discriminator >= |TYPES| then IsUnreadable(UnknownType(discriminator))
      else
        var t := TYPES[discriminator];
        var payload := data[HEADER_SIZE..];
        if |payload| != SizeOf(Layout(t)) then IsUnreadable(Length(t, SizeOf(Layout(t)), |payload|))
        else IsEvent(EventOf(t, DecodeAll(Layout(t), payload)))
  }

  function Encode(e: ProgramEvent): seq<byte> {
    TAG + [Discriminator(TypeOf(e))] + EncodeAll(ValuesOf(e))
  }

  /** What is written reads back, for every event of the seven types. */
  lemma {:induction false} EventRoundTrip(e: ProgramEvent)
    ensures Read(Encode(e)) == IsEvent(e)
  {
    hide Layout, ValuesOf, EventOf, EncodeAll, DecodeAll, SizeOf, AllFit;
    var t := TypeOf(e);
    FieldsRoundTrip(e);
    StructRoundTrip(Layout(t), ValuesOf(e));
    var data := Encode(e);
    assert data[..8] == TAG && data[8] == Discriminator(t) && data[9..] == EncodeAll(ValuesOf(e));
  }

  /** And any bytes that read as an event are the bytes of that event: no second spelling, no byte ignored. */
  lemma {:induction false} BytesOfEventAreItsOwn(data: seq<byte>, e: ProgramEvent)
    requires Read(data) == IsEvent(e)
    ensures Encode(e) == data
  {
    hide Layout, ValuesOf, EventOf, EncodeAll, DecodeAll, SizeOf, AllFit;
    var t := TYPES[data[8]];
    var payload := data[HEADER_SIZE..];
    LayoutRoundTrip(Layout(t), payload);
    ValuesRoundTrip(t, DecodeAll(Layout(t), payload));
    DiscriminatorsDiffer(data[8]);
    assert data == data[..8] + [data[8]] + payload;
  }

  lemma {:induction false} DiscriminatorsDiffer(d: byte)
    requires d < |TYPES|
    ensures Discriminator(TYPES[d]) == d
  {
  }

  /**
   * Tagged data of at least header length is never skipped: it is an event exactly when
   * its discriminator is known and its length is that type's, and a named gap otherwise.
   */
  lemma {:induction false} TaggedIsNeverSkipped(data: seq<byte>)
    ensures Read(data) == NotAnEvent <==> !StartsWithTag(data)
    ensures Read(data).IsEvent? <==> exists e :: Encode(e) == data
    ensures Read(data).IsUnreadable? <==> StartsWithTag(data) && !(exists e :: Encode(e) == data)
    ensures Read(data).IsUnreadable? && Read(data).why.UnknownType? <==> StartsWithTag(data) && data[8] >= 7
  {
    if Read(data).IsEvent? { BytesOfEventAreItsOwn(data, Read(data).event); }
    if e :| Encode(e) == data { EventRoundTrip(e); }
  }

  // ---------------------------------------------------------------- where each field stands

  /** The eight bytes from `k` on, the lowest first. */
  function U64At(data: seq<byte>, k: nat): int
    requires k + 8 <= |data|
  {
    var at := (i: int) requires 0 <= i < 8 => data[k + i] as int;
    at(0) + at(1) * 0x100 + at(2) * 0x1_0000 + at(3) * 0x100_0000
    + at(4) * 0x1_0000_0000 + at(5) * 0x100_0000_0000 + at(6) * 0x1_0000_0000_0000 + at(7) * 0x100_0000_0000_0000
  }

  /** The same eight bytes in two's complement: the highest bit counts negative. */
  function I64At(data: seq<byte>, k: nat): int
    requires k + 8 <= |data|
  {
    if data[k + 7] >= 128 then U64At(data, k) - 0x1_0000_0000_0000_0000 else U64At(data, k)
  }

  /** The program's layout, byte by byte: which length and type byte mean which event, and where its fields stand. */
  ghost predicate Stands(data: seq<byte>, e: ProgramEvent) {
    && |data| >= 9 && data[..8] == [0xe4, 0x45, 0xa5, 0x2e, 0x51, 0xcb, 0x9a, 0x1d]
    && match e
       case SubscriptionCreated(plan, subscriber, mint, createdTs, payer) =>
         && data[8] == 0 && |data| == 145
         && plan == data[9..41] && subscriber == data[41..73] && mint == data[73..105]
         && createdTs == I64At(data, 105) && payer == data[113..145]
       case SubscriptionCancelled(plan, subscriber, expiresAtTs) =>
         && data[8] == 1 && |data| == 81
         && plan == data[9..41] && subscriber == data[41..73] && expiresAtTs == I64At(data, 73)
       case SubscriptionTransfer(subscription, plan, delegator, mint, amount, periodStartTs, periodEndTs,
                                 amountPulledInPeriod, receiver, receiverTokenAccount, puller) =>
         && data[8] == 2 && |data| == 265
         && subscription == data[9..41] && plan == data[41..73] && delegator == data[73..105] && mint == data[105..137]
         && amount == U64At(data, 137) && periodStartTs == I64At(data, 145) && periodEndTs == I64At(data, 153)
         && amountPulledInPeriod == U64At(data, 161) && receiver == data[169..201]
         && receiverTokenAccount == data[201..233] && puller == data[233..265]
       case FixedTransfer(delegation, delegator, delegatee, mint, amount, remainingAmount, receiver, receiverTokenAccount) =>
         && data[8] == 3 && |data| == 217
         && delegation == data[9..41] && delegator == data[41..73] && delegatee == data[73..105] && mint == data[105..137]
         && amount == U64At(data, 137) && remainingAmount == U64At(data, 145)
         && receiver == data[153..185] && receiverTokenAccount == data[185..217]
       case RecurringTransfer(delegation, delegator, delegatee, mint, amount, periodStartTs, periodEndTs,
                              amountPulledInPeriod, receiver, receiverTokenAccount) =>
         && data[8] == 4 && |data| == 233
         && delegation == data[9..41] && delegator == data[41..73] && delegatee == data[73..105] && mint == data[105..137]
         && amount == U64At(data, 137) && periodStartTs == I64At(data, 145) && periodEndTs == I64At(data, 153)
         && amountPulledInPeriod == U64At(data, 161) && receiver == data[169..201] && receiverTokenAccount == data[201..233]
       case SubscriptionResumed(plan, subscriber, resumedTs) =>
         && data[8] == 5 && |data| == 81
         && plan == data[9..41] && subscriber == data[41..73] && resumedTs == I64At(data, 73)
       case PlanUpdated(plan, owner, status, endTs, pullers) =>
         && data[8] == 6 && |data| == 210
         && plan == data[9..41] && owner == data[41..73] && status == data[73] && endTs == I64At(data, 74)
         && pullers == [data[82..114], data[114..146], data[146..178], data[178..210]]
  }

  lemma {:induction false} FirstByte(b: seq<byte>)
    requires b != []
    ensures FromLE(b) == b[0] + 256 * FromLE(b[1..])
  {
  }

  lemma {:induction false} NumberAt(data: seq<byte>, k: nat)
    requires k + 8 <= |data|
    ensures FromLE(data[k..k + 8]) == U64At(data, k)
  {
    hide FromLE;
    var b := data[k..k + 8];
    FirstByte(b);
    FirstByte(b[1..]);
    assert b[1..][1..] == b[2..];
    FirstByte(b[2..]);
    assert b[2..][1..] == b[3..];
    FirstByte(b[3..]);
    assert b[3..][1..] == b[4..];
    FirstByte(b[4..]);
    assert b[4..][1..] == b[5..];
    FirstByte(b[5..]);
    assert b[5..][1..] == b[6..];
    FirstByte(b[6..]);
    assert b[6..][1..] == b[7..];
    FirstByte(b[7..]);
    assert b[7..][1..] == [] && FromLE([]) == 0 by { NoBytes(); }
  }

  lemma {:induction false} NoBytes()
    ensures FromLE([]) == 0
  {
  }

  lemma {:induction false} ValueAt(f: Field, data: seq<byte>, k: nat)
    requires k + Size(f) <= |data|
    ensures var v := DecodeValue(f, data[k..k + Size(f)]);
            match f
            case AddressField => v.address == data[k..k + 32]
            case U64Field => v.u == U64At(data, k)
            case I64Field => v.i == I64At(data, k)
            case U8Field => v.b == data[k]
  {
    if f.U64Field? { NumberAt(data, k); }
    if f.I64Field? { SignedAt(data, k); }
  }

  lemma {:induction false} SignedAt(data: seq<byte>, k: nat)
    requires k + 8 <= |data|
    ensures FromLE(data[k..k + 8]) == U64At(data, k) < 0x1_0000_0000_0000_0000
    ensures -0x8000_0000_0000_0000 <= I64At(data, k) < 0x8000_0000_0000_0000
    ensures ToSigned(U64At(data, k)) == I64At(data, k)
  {
    NumberAt(data, k);
    U64OfBytes(data[k..k + 8]);
  }

  /** Where the `i`-th field of a layout begins. */
  function OffsetOf(layout: seq<Field>, i: nat): nat
    requires i <= |layout|
  {
    if i == 0 then 0 else OffsetOf(layout, i - 1) + Size(layout[i - 1])
  }

  lemma {:induction false} OffsetOfRest(layout: seq<Field>, i: nat)
    requires 0 < i <= |layout|
    ensures OffsetOf(layout, i) == Size(layout[0]) + OffsetOf(layout[1..], i - 1)
    decreases i
  {
    if i > 1 { OffsetOfRest(layout, i - 1); }
  }

  lemma {:induction false} WholeSize(layout: seq<Field>)
    ensures SizeOf(layout) == OffsetOf(layout, |layout|)
    decreases |layout|
  {
    if layout != [] {
      WholeSize(layout[1..]);
      OffsetOfRest(layout, |layout|);
    }
  }

  lemma {:induction false} OffsetsGrow(layout: seq<Field>, i: nat, j: nat)
    requires i <= j <= |layout|
    ensures OffsetOf(layout, i) <= OffsetOf(layout, j)
    decreases j
  {
    if i < j { OffsetsGrow(layout, i, j - 1); }
  }

  lemma {:induction false} SliceOfRest(b: seq<byte>, n: nat, k: nat, m: nat)
    requires n + k + m <= |b|
    ensures b[n..][k..k + m] == b[n + k..n + k + m]
  {
  }

  lemma {:induction false} DecodedFirst(layout: seq<Field>, b: seq<byte>)
    requires |b| == SizeOf(layout) && layout != []
    ensures DecodeAll(layout, b)[0] == DecodeValue(layout[0], b[..Size(layout[0])])
    ensures |b[Size(layout[0])..]| == SizeOf(layout[1..])
    ensures DecodeAll(layout, b)[1..] == DecodeAll(layout[1..], b[Size(layout[0])..])
  {
  }

  lemma {:induction false} DecodedAt(layout: seq<Field>, b: seq<byte>, i: nat, k: nat)
    requires |b| == SizeOf(layout) && i < |layout| && k == OffsetOf(layout, i)
    ensures k + Size(layout[i]) <= |b|
    ensures DecodeAll(layout, b)[i] == DecodeValue(layout[i], b[k..k + Size(layout[i])])
    decreases i
  {
    hide DecodeValue, DecodeAll, SizeOf, OffsetOf, Size;
    FitsIn(layout, i);
    DecodedFirst(layout, b);
    if i == 0 {
      NextOffset(layout, 0);
    } else {
      var n, rest := Size(layout[0]), layout[1..];
      assert rest[i - 1] == layout[i];
      OffsetOfRest(layout, i);
      DecodedAt(rest, b[n..], i - 1, k - n);
      SliceOfRest(b, n, k - n, Size(layout[i]));
    }
  }

  lemma {:induction false} FitsIn(layout: seq<Field>, i: nat)
    requires i < |layout|
    ensures OffsetOf(layout, i) + Size(layout[i]) <= SizeOf(layout)
  {
    WholeSize(layout);
    OffsetsGrow(layout, i + 1, |layout|);
    NextOffset(layout, i);
  }

  /** The `i`-th decoded field of an event's data, by its place in the data. */
  lemma {:induction false} FieldAt(layout: seq<Field>, data: seq<byte>, i: nat)
    requires |data| == HEADER_SIZE + SizeOf(layout) && i < |layout|
    ensures var k := HEADER_SIZE + OffsetOf(layout, i);
            k + Size(layout[i]) <= |data|
            && DecodeAll(layout, data[HEADER_SIZE..])[i] == DecodeValue(layout[i], data[k..k + Size(layout[i])])
  {
    hide *;
    var at := OffsetOf(layout, i);
    DecodedAt(layout, data[HEADER_SIZE..], i, at);
    SliceOfRest(data, HEADER_SIZE, at, Size(layout[i]));
  }

  /** The `i`-th field read, `k` bytes into the data. */
  lemma {:induction false} ReadsAt(layout: seq<Field>, data: seq<byte>, i: nat, k: nat)
    requires |data| == HEADER_SIZE + SizeOf(layout) && i < |layout| && k == HEADER_SIZE + OffsetOf(layout, i)
    ensures k + Size(layout[i]) <= |data|
    ensures var v := DecodeAll(layout, data[HEADER_SIZE..])[i];
            match layout[i]
            case AddressField => v.address == data[k..k + 32]
            case U64Field => v.u == U64At(data, k)
            case I64Field => v.i == I64At(data, k)
            case U8Field => v.b == data[k]
  {
    hide DecodeAll, DecodeValue, U64At, I64At, OffsetOf;
    FieldAt(layout, data, i);
    ValueAt(layout[i], data, k);
  }

  lemma {:induction false} NextOffset(layout: seq<Field>, i: nat)
    requires i < |layout|
    ensures OffsetOf(layout, 0) == 0 && OffsetOf(layout, i + 1) == OffsetOf(layout, i) + Size(layout[i])
  {
  }

  lemma {:induction false} Offsets(layout: seq<Field>, places: seq<nat>)
    requires |places| == |layout| + 1 && places[0] == 0
    requires forall i :: 0 <= i < |layout| ==> places[i + 1] == places[i] + Size(layout[i])
    ensures SizeOf(layout) == places[|layout|] && forall i :: 0 <= i < |layout| ==> OffsetOf(layout, i) == places[i]
  {
    WholeSize(layout);
    hide SizeOf;
    var n := 0;
    while n < |layout|
      invariant 0 <= n <= |layout| && forall i :: 0 <= i <= n ==> OffsetOf(layout, i) == places[i]
    {
      NextOffset(layout, n);
      n := n + 1;
    }
  }

  /** Where the fields of each event stand in its payload, and behind them its size. */
  function PlacesOf(t: EventType): seq<nat> {
    match t
    case CreatedType => [0, 32, 64, 96, 104, 136]
    case CancelledType => [0, 32, 64, 72]
    case TransferType => [0, 32, 64, 96, 128, 136, 144, 152, 160, 192, 224, 256]
    case FixedType => [0, 32, 64, 96, 128, 136, 144, 176, 208]
    case RecurringType => [0, 32, 64, 96, 128, 136, 144, 152, 160, 192, 224]
    case ResumedType => [0, 32, 64, 72]
    case UpdatedType => [0, 32, 64, 65, 73, 105, 137, 169, 201]
  }

  lemma {:induction false} PlacesAre(t: EventType)
    ensures |PlacesOf(t)| == |Layout(t)| + 1 && SizeOf(Layout(t)) == PlacesOf(t)[|Layout(t)|]
    ensures forall i :: 0 <= i < |Layout(t)| ==> OffsetOf(Layout(t), i) == PlacesOf(t)[i]
  {
    hide SizeOf, OffsetOf;
    Offsets(Layout(t), PlacesOf(t));
  }

  lemma {:induction false} CreatedStands(data: seq<byte>)
    requires StartsWithTag(data) && data[8] == 0 && |data| == HEADER_SIZE + SizeOf(Layout(CreatedType))
    ensures Read(data).IsEvent? && Stands(data, Read(data).event)
  {
    hide DecodeAll, SizeOf, OffsetOf, U64At, I64At;
    var layout := Layout(CreatedType);
    PlacesAre(CreatedType);
    ReadsAt(layout, data, 0, 9);
    ReadsAt(layout, data, 1, 41);
    ReadsAt(layout, data, 2, 73);
    ReadsAt(layout, data, 3, 105);
    ReadsAt(layout, data, 4, 113);
  }

  lemma {:induction false} CancelledStands(data: seq<byte>)
    requires StartsWithTag(data) && data[8] == 1 && |data| == HEADER_SIZE + SizeOf(Layout(CancelledType))
    ensures Read(data).IsEvent? && Stands(data, Read(data).event)
  {
    hide DecodeAll, SizeOf, OffsetOf, U64At, I64At;
    var layout := Layout(CancelledType);
    PlacesAre(CancelledType);
    ReadsAt(layout, data, 0, 9);
    ReadsAt(layout, data, 1, 41);
    ReadsAt(layout, data, 2, 73);
  }

  lemma {:induction false} TransferStands(data: seq<byte>)
    requires StartsWithTag(data) && data[8] == 2 && |data| == HEADER_SIZE + SizeOf(Layout(TransferType))
    ensures Read(data).IsEvent? && Stands(data, Read(data).event)
  {
    hide DecodeAll, SizeOf, OffsetOf, U64At, I64At;
    var layout := Layout(TransferType);
    PlacesAre(TransferType);
    ReadsAt(layout, data, 0, 9);
    ReadsAt(layout, data, 1, 41);
    ReadsAt(layout, data, 2, 73);
    ReadsAt(layout, data, 3, 105);
    ReadsAt(layout, data, 4, 137);
    ReadsAt(layout, data, 5, 145);
    ReadsAt(layout, data, 6, 153);
    ReadsAt(layout, data, 7, 161);
    ReadsAt(layout, data, 8, 169);
    ReadsAt(layout, data, 9, 201);
    ReadsAt(layout, data, 10, 233);
  }

  lemma {:induction false} FixedStands(data: seq<byte>)
    requires StartsWithTag(data) && data[8] == 3 && |data| == HEADER_SIZE + SizeOf(Layout(FixedType))
    ensures Read(data).IsEvent? && Stands(data, Read(data).event)
  {
    hide DecodeAll, SizeOf, OffsetOf, U64At, I64At;
    var layout := Layout(FixedType);
    PlacesAre(FixedType);
    ReadsAt(layout, data, 0, 9);
    ReadsAt(layout, data, 1, 41);
    ReadsAt(layout, data, 2, 73);
    ReadsAt(layout, data, 3, 105);
    ReadsAt(layout, data, 4, 137);
    ReadsAt(layout, data, 5, 145);
    ReadsAt(layout, data, 6, 153);
    ReadsAt(layout, data, 7, 185);
  }

  lemma {:induction false} RecurringStands(data: seq<byte>)
    requires StartsWithTag(data) && data[8] == 4 && |data| == HEADER_SIZE + SizeOf(Layout(RecurringType))
    ensures Read(data).IsEvent? && Stands(data, Read(data).event)
  {
    hide DecodeAll, SizeOf, OffsetOf, U64At, I64At;
    var layout := Layout(RecurringType);
    PlacesAre(RecurringType);
    ReadsAt(layout, data, 0, 9);
    ReadsAt(layout, data, 1, 41);
    ReadsAt(layout, data, 2, 73);
    ReadsAt(layout, data, 3, 105);
    ReadsAt(layout, data, 4, 137);
    ReadsAt(layout, data, 5, 145);
    ReadsAt(layout, data, 6, 153);
    ReadsAt(layout, data, 7, 161);
    ReadsAt(layout, data, 8, 169);
    ReadsAt(layout, data, 9, 201);
  }

  lemma {:induction false} ResumedStands(data: seq<byte>)
    requires StartsWithTag(data) && data[8] == 5 && |data| == HEADER_SIZE + SizeOf(Layout(ResumedType))
    ensures Read(data).IsEvent? && Stands(data, Read(data).event)
  {
    hide DecodeAll, SizeOf, OffsetOf, U64At, I64At;
    var layout := Layout(ResumedType);
    PlacesAre(ResumedType);
    ReadsAt(layout, data, 0, 9);
    ReadsAt(layout, data, 1, 41);
    ReadsAt(layout, data, 2, 73);
  }

  lemma {:induction false} UpdatedStands(data: seq<byte>)
    requires StartsWithTag(data) && data[8] == 6 && |data| == HEADER_SIZE + SizeOf(Layout(UpdatedType))
    ensures Read(data).IsEvent? && Stands(data, Read(data).event)
  {
    hide DecodeAll, SizeOf, OffsetOf, U64At, I64At;
    var layout := Layout(UpdatedType);
    PlacesAre(UpdatedType);
    ReadsAt(layout, data, 0, 9);
    ReadsAt(layout, data, 1, 41);
    ReadsAt(layout, data, 2, 73);
    ReadsAt(layout, data, 3, 74);
    ReadsAt(layout, data, 4, 82);
    ReadsAt(layout, data, 5, 114);
    ReadsAt(layout, data, 6, 146);
    ReadsAt(layout, data, 7, 178);
  }

  lemma {:induction false} SizeIs(t: EventType)
    ensures SizeOf(Layout(t)) == match t
                                 case CreatedType => 136
                                 case CancelledType => 72
                                 case TransferType => 256
                                 case FixedType => 208
                                 case RecurringType => 224
                                 case ResumedType => 72
                                 case UpdatedType => 201
  {
    PlacesAre(t);
    hide SizeOf, OffsetOf;
  }

  /**
   * Bytes read as an event exactly when they are that event's by the program's layout:
   * the type byte, the length, and every field at its own place.
   */
  lemma {:induction false} ReadsByTheLayout(data: seq<byte>, e: ProgramEvent)
    ensures Read(data) == IsEvent(e) <==> Stands(data, e)
  {
    hide DecodeAll, SizeOf, Layout, EventOf, U64At, I64At;
    if StartsWithTag(data) && data[8] < 7 {
      SizeIs(TYPES[data[8]]);
      if |data| == HEADER_SIZE + SizeOf(Layout(TYPES[data[8]])) {
        match TYPES[data[8]]
        case CreatedType => CreatedStands(data);
        case CancelledType => CancelledStands(data);
        case TransferType => TransferStands(data);
        case FixedType => FixedStands(data);
        case RecurringType => RecurringStands(data);
        case ResumedType => ResumedStands(data);
        case UpdatedType => UpdatedStands(data);
      }
    }
  }

  /** What tagged bytes that are no event are called. */
  lemma {:induction false} GapsAreNamed(data: seq<byte>)
    requires Read(data).IsUnreadable?
    ensures |data| >= 9
    ensures data[8] >= 7 ==> Read(data).why == UnknownType(data[8])
    ensures data[8] < 7 ==>
              var d := data[8];
              var types := [CreatedType, CancelledType, TransferType, FixedType, RecurringType, ResumedType, UpdatedType];
              var expected := [136, 72, 256, 208, 224, 72, 201][d];
              Read(data).why == Length(types[d], expected, |data| - 9) && |data| != 9 + expected
  {
    if data[8] < 7 { SizeIs(TYPES[data[8]]); }
    hide SizeOf, Layout;
  }

  // ---------------------------------------------------------------- filling the buffer

  /** Copies `bytes` into `out` at `offset`, leaving the rest as it is. */
  method SetAt(out: array<byte>, bytes: seq<byte>, offset: nat)
    requires offset + |bytes| <= out.Length
    modifies out
    ensures out[..] == old(out[..offset]) + bytes + old(out[offset + |bytes|..])
  {
    for i := 0 to |bytes|
      invariant out[..offset] == old(out[..offset])
      invariant out[offset..offset + i] == bytes[..i]
      invariant out[offset + |bytes|..] == old(out[offset + |bytes|..])
    {
      out[offset + i] := bytes[i];
      assert out[offset..offset + i + 1] == out[offset..offset + i] + [bytes[i]];
    }
    assert out[..] == out[..offset] + out[offset..offset + |bytes|] + out[offset + |bytes|..];
  }

  method EncodeProgramEvent(e: ProgramEvent) returns (out: array<byte>)
    ensures fresh(out) && out[..] == Encode(e)
    ensures Read(out[..]) == IsEvent(e)
  {
    hide Encode, Read, EncodeAll, ValuesOf, Discriminator;
    var payload := EncodeAll(ValuesOf(e));
    out := new byte[HEADER_SIZE + |payload|](_ => 0);
    SetAt(out, TAG, 0);
    out[|TAG|] := Discriminator(TypeOf(e));
    SetAt(out, payload, HEADER_SIZE);
    assert Encode(e) == TAG + [Discriminator(TypeOf(e))] + payload by { EncodeIs(e); }
    EventRoundTrip(e);
  }

  lemma {:induction false} EncodeIs(e: ProgramEvent)
    ensures Encode(e) == TAG + [Discriminator(TypeOf(e))] + EncodeAll(ValuesOf(e))
  {
  }
}
