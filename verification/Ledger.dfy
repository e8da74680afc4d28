/** What the ledger conserves: shares of every asset, and the votes of every delegate. */
module Ledger {
  import opened Prelude
  import opened Records
  import opened Sums

  /** How many shares of asset `a` a record stands for. */
  function Worth(rec: Record, a: AssetId): int {
    match rec
    case BalanceRecord(b) => if b.condition.asset == a then b.amount else 0
    case AccountRecord(acc) => if a == BASE_ASSET && acc.delegate.Some? then acc.delegate.value.payBalance else 0
    case AssetRecord(asset) =>
      (if asset.id == a then asset.collectedFees else 0) + (if a == BASE_ASSET then asset.currentCollateral else 0)
    case PacketRecord(p) => if p.asset == a then LeftAmount(p.shares) else 0
    case RewardRecord(fees) => if a in fees then fees[a] else 0
    case SlateRecord(_) => 0
    case MessageRecord(_) => 0
    case ReferenceRecord(_) => 0
  }

  ghost function WorthMap(r: Records, a: AssetId): map<Key, int> {
    map k | k in r :: Worth(r[k], a)
  }

  /** All shares of asset `a` in the records. */
  ghost function Holdings(r: Records, a: AssetId): int {
    Total(WorthMap(r, a))
  }

  function Supply(r: Records, a: AssetId): int {
    if GetAsset(r, a).Some? then GetAsset(r, a).value.currentSupply else 0
  }

  function CollectedFees(r: Records, a: AssetId): int {
    if GetAsset(r, a).Some? then GetAsset(r, a).value.collectedFees else 0
  }

  function At(m: map<int, int>, k: int): int {
    if k in m then m[k] else 0
  }

  function Add(m: map<int, int>, k: int, x: int): map<int, int> {
    m[k := At(m, k) + x]
  }

  lemma AddTwice(m: map<int, int>, k: int, x: int, y: int)
    ensures Add(Add(m, k, x), k, y) == Add(m, k, x + y)
  {
  }

  function ReferenceOf(r: Records): Reference {
    if ReferenceKey in r && r[ReferenceKey].ReferenceRecord? then r[ReferenceKey].reference else Reference(0, 0, map[])
  }

  /** The shares of asset `a` that were paid out of a packet and left in it as well. */
  function PaidTwice(r: Records, a: AssetId): int {
    At(ReferenceOf(r).paidTwice, a)
  }

  /** Records plus the running total of the transaction make up the supply of every asset, and what was paid twice. */
  ghost predicate Balanced(r: Records, fees: map<AssetId, int>) {
    forall a: AssetId {:trigger Holdings(r, a)} :: Holdings(r, a) + At(fees, a) == Supply(r, a) + PaidTwice(r, a)
  }

  predicate InSlate(r: Records, slate: SlateId, d: AccountId) {
    slate != 0 && GetSlate(r, slate).Some? && d in GetSlate(r, slate).value
  }

  /** The votes a record gives to delegate `d`: base shares under a slate that names the delegate. */
  function VoteWeight(r: Records, k: Key, d: AccountId): int
    requires k in r
  {
    if r[k].BalanceRecord? && r[k].balance.condition.asset == BASE_ASSET && InSlate(r, r[k].balance.condition.slate, d)
    then r[k].balance.amount else 0
  }

  ghost function VoteMap(r: Records, d: AccountId): map<Key, int> {
    map k | k in r :: VoteWeight(r, k, d)
  }

  ghost function Votes(r: Records, d: AccountId): int {
    Total(VoteMap(r, d))
  }

  /** Every delegate's tally, with the pending corrections, is its pay plus the votes for it. */
  ghost predicate Tallied(r: Records, deltas: map<AccountId, int>) {
    forall d: AccountId {:trigger Votes(r, d)} | IsDelegate(r, d) :: TallyOf(r, d) + At(deltas, d) == Votes(r, d)
  }

  /** A delegate's recorded votes in excess of its unclaimed pay. */
  function TallyOf(r: Records, d: AccountId): int
    requires IsDelegate(r, d)
  {
    var info := GetAccount(r, d).value.delegate.value;
    info.votesFor - info.payBalance
  }

  datatype Duty = Produced | Missed

  /** The production slots charged to the delegate a record holds. */
  function Charge(rec: Record, duty: Duty): nat {
    if !rec.AccountRecord? || rec.account.delegate.None? then 0
    else if duty.Produced? then rec.account.delegate.value.blocksProduced
    else rec.account.delegate.value.blocksMissed
  }

  ghost function ChargeMap(r: Records, duty: Duty): map<Key, int> {
    map k | k in r :: Charge(r[k], duty)
  }

  /** All slots charged to delegates. */
  ghost function Charged(r: Records, duty: Duty): int {
    Total(ChargeMap(r, duty))
  }

  function SlotCount(s: Reference, duty: Duty): nat {
    if duty.Produced? then s.produced else s.missed
  }

  /** Every slot that has passed is charged to exactly one delegate. */
  ghost predicate AllCharged(r: Records) {
    forall duty: Duty {:trigger Charged(r, duty)} :: Charged(r, duty) == SlotCount(ReferenceOf(r), duty)
  }

  /** The account is found under the address. */
  predicate OwnsKey(r: Records, id: AccountId, a: Address) {
    GetAccount(r, id).Some? && a in Keys(GetAccount(r, id).value)
  }

  /** No address but that of the null key belongs to two accounts. */
  ghost predicate KeysUnique(r: Records) {
    forall i, j, a {:trigger OwnsKey(r, i, a), OwnsKey(r, j, a)} | a != NULL_KEY && OwnsKey(r, i, a) && OwnsKey(r, j, a) :: i == j
  }

  /** No other account has an address of this one, except that of the null key. */
  ghost predicate KeysAvailable(r: Records, acc: Account) {
    forall id, a {:trigger OwnsKey(r, id, a)} | a != NULL_KEY && a in Keys(acc) && OwnsKey(r, id, a) :: id == acc.id
  }

  /** A record agrees with its key, holds no negative amount and refers only to what exists. */
  ghost predicate RecordOk(r: Records, k: Key)
    requires k in r
  {
    match k
    case BalanceKey(c) =>
      && r[k].BalanceRecord? && r[k].balance.condition == c && r[k].balance.amount >= 0
      && (c.asset == BASE_ASSET && c.slate != 0 ==> GetSlate(r, c.slate).Some?)
    case AccountKey(id) =>
      && r[k].AccountRecord? && r[k].account.id == id && id > 0
      && (r[k].account.delegate.Some? ==> r[k].account.delegate.value.payBalance >= 0)
    case AssetKey(id) =>
      && r[k].AssetRecord? && r[k].asset.id == id && r[k].asset.collectedFees >= 0
      && (id == BASE_ASSET ==> r[k].asset.issuer.God?)
    case SlateKey(_) => r[k].SlateRecord? && forall d | d in r[k].slate && d >= 0 :: IsDelegate(r, d)
    case PacketKey(id) => r[k].PacketRecord? && r[k].packet.id == id && forall s | s in r[k].packet.shares :: s.amount >= 0
    case ReferenceKey => r[k].ReferenceRecord?
    case RewardKey => r[k].RewardRecord? && forall a | a in r[k].fees :: r[k].fees[a] >= 0
    case BurnKey(_, _) => r[k].MessageRecord?
    case AdKey(_, _) => r[k].MessageRecord?
    case NoteKey(_, _) => r[k].MessageRecord?
  }

  ghost predicate RecordsOk(r: Records) {
    && AssetKey(BASE_ASSET) in r && RewardKey in r
    && forall k {:trigger RecordOk(r, k)} | k in r :: RecordOk(r, k)
  }

  /** Sound records, balanced books, exact tallies, every production slot charged to one delegate, and every
      address, but for the null key, owned by one account. */
  ghost predicate Sound(r: Records, fees: map<AssetId, int>, deltas: map<AccountId, int>) {
    && RecordsOk(r)
    && Balanced(r, fees)
    && Tallied(r, deltas)
    && AllCharged(r)
    && KeysUnique(r)
    && forall d | d in deltas :: IsDelegate(r, d)
  }

  function WorthAt(r: Records, k: Key, a: AssetId): int {
    if k in r then Worth(r[k], a) else 0
  }

  lemma HoldingsStore(r: Records, k: Key, rec: Record, a: AssetId)
    ensures Holdings(r[k := rec], a) == Holdings(r, a) - WorthAt(r, k, a) + Worth(rec, a)
  {
    assert WorthMap(r[k := rec], a) == WorthMap(r, a)[k := Worth(rec, a)];
    TotalUpdate(WorthMap(r, a), k, Worth(rec, a));
  }

  function ChargeAt(r: Records, k: Key, duty: Duty): nat {
    if k in r then Charge(r[k], duty) else 0
  }

  /** The slots charged to one account. */
  function Counter(r: Records, d: AccountId, duty: Duty): nat {
    ChargeAt(r, AccountKey(d), duty)
  }

  ghost predicate SameCounters(before: Records, after: Records) {
    forall d, e {:trigger Counter(before, d, e)} {:trigger Counter(after, d, e)} :: Counter(after, d, e) == Counter(before, d, e)
  }

  lemma ChargedStore(r: Records, k: Key, rec: Record)
    ensures forall duty: Duty {:trigger Charged(r[k := rec], duty)} ::
              Charged(r[k := rec], duty) == Charged(r, duty) - ChargeAt(r, k, duty) + Charge(rec, duty)
  {
    forall duty: Duty
      ensures Charged(r[k := rec], duty) == Charged(r, duty) - ChargeAt(r, k, duty) + Charge(rec, duty)
    {
      assert ChargeMap(r[k := rec], duty) == ChargeMap(r, duty)[k := Charge(rec, duty)];
      TotalUpdate(ChargeMap(r, duty), k, Charge(rec, duty));
    }
  }

  lemma OtherKeysUnique(r: Records, k: Key, rec: Record)
    requires KeysUnique(r) && !k.AccountKey?
    ensures KeysUnique(r[k := rec])
  {
    var r' := r[k := rec];
    forall i, j, a | a != NULL_KEY && OwnsKey(r', i, a) && OwnsKey(r', j, a) ensures i == j {
      assert OwnsKey(r, i, a) && OwnsKey(r, j, a);
    }
  }

  lemma AccountKeysUnique(r: Records, acc: Account)
    requires KeysUnique(r) && KeysAvailable(r, acc)
    ensures KeysUnique(r[AccountKey(acc.id) := AccountRecord(acc)])
  {
    var r' := r[AccountKey(acc.id) := AccountRecord(acc)];
    forall i, j, a | a != NULL_KEY && OwnsKey(r', i, a) && OwnsKey(r', j, a) ensures i == j {
      assert i != acc.id ==> OwnsKey(r, i, a);
      assert j != acc.id ==> OwnsKey(r, j, a);
    }
  }

  /** An account that keeps its addresses, or gives some up, takes none from another. */
  lemma OwnKeysAvailable(r: Records, acc: Account)
    requires KeysUnique(r) && GetAccount(r, acc.id).Some? && Keys(acc) <= Keys(GetAccount(r, acc.id).value)
    ensures KeysAvailable(r, acc)
  {
    forall id, a | a != NULL_KEY && a in Keys(acc) && OwnsKey(r, id, a) ensures id == acc.id {
      assert OwnsKey(r, acc.id, a);
    }
  }

  /** Writing a record that is not a slate moves the votes by what that record carries. */
  lemma VotesStore(r: Records, k: Key, rec: Record, d: AccountId)
    requires !k.SlateKey?
    ensures Votes(r[k := rec], d) ==
            Votes(r, d) - (if k in r then VoteWeight(r, k, d) else 0) + VoteWeight(r[k := rec], k, d)
  {
    assert VoteMap(r[k := rec], d) == VoteMap(r, d)[k := VoteWeight(r[k := rec], k, d)];
    TotalUpdate(VoteMap(r, d), k, VoteWeight(r[k := rec], k, d));
  }

  /** Records stay sound when one record is written and no delegate is lost. */
  lemma StoreKeepsRecordsOk(r: Records, k: Key, rec: Record)
    requires RecordsOk(r) && RecordOk(r[k := rec], k)
    requires k.AccountKey? && k in r && r[k].AccountRecord? && r[k].account.IsDelegate() ==> rec.account.IsDelegate()
    ensures RecordsOk(r[k := rec])
  {
    var r' := r[k := rec];
    forall j | j in r' ensures RecordOk(r', j) {
      if j != k {
        assert RecordOk(r, j);
        assert k in r ==> RecordOk(r, k);
      }
    }
  }

  /* ---------------------------------------------------------------- the moves all operations are made of */

  /** The vote corrections after `amount` more base shares stand under `slate`. */
  ghost predicate Adjusted(r: Records, deltas: map<AccountId, int>, slate: SlateId, amount: int, deltas': map<AccountId, int>) {
    && (forall d :: At(deltas', d) == At(deltas, d) + (if d >= 0 && InSlate(r, slate, d) then amount else 0))
    && (forall d | d in deltas' :: d in deltas || (d >= 0 && InSlate(r, slate, d)))
  }

  function AmountOf(r: Records, c: Condition): int {
    if GetBalance(r, c).Some? then GetBalance(r, c).value.amount else 0
  }

  /** Shares that appear in a balance leave the running total, and carry their votes with them. */
  lemma PutBalance(r: Records, fees: map<AssetId, int>, deltas: map<AccountId, int>, b: Balance, deltas': map<AccountId, int>)
    requires Sound(r, fees, deltas) && b.amount >= 0
    requires b.condition.asset == BASE_ASSET && b.condition.slate != 0 ==> GetSlate(r, b.condition.slate).Some?
    requires Adjusted(r, deltas, if b.condition.asset == BASE_ASSET then b.condition.slate else 0,
                      b.amount - AmountOf(r, b.condition), deltas')
    ensures Sound(r[BalanceKey(b.condition) := BalanceRecord(b)],
                  Add(fees, b.condition.asset, AmountOf(r, b.condition) - b.amount), deltas')
  {
    var k, rec := BalanceKey(b.condition), BalanceRecord(b);
    assert k in r ==> RecordOk(r, k);
    StoreKeepsRecordsOk(r, k, rec);
    ChargedStore(r, k, rec);
    OtherKeysUnique(r, k, rec);
    SlatesNameDelegates(r, b.condition.slate);
    BalanceBooks(r, fees, b);
    BalanceTallies(r, deltas, b, deltas');
  }

  /** A balance after a payment into it; it is created when needed. */
  function Credited(r: Records, id: Condition, amount: int, now: Time): Balance {
    var b := if GetBalance(r, id).Some? then GetBalance(r, id).value else EmptyBalance(id);
    b.(amount := b.amount + amount, lastUpdate := now, depositDate := now)
  }

  /** A payment to the plain balance of an owner comes out of the running total. */
  lemma PutCredit(r: Records, fees: map<AssetId, int>, deltas: map<AccountId, int>, owner: Address, asset: AssetId, amount: int, now: Time)
    requires Sound(r, fees, deltas) && amount >= 0
    ensures var b := Credited(r, Plain(owner, asset), amount, now);
            && b.condition == Plain(owner, asset) && b.amount == AmountOf(r, b.condition) + amount
            && Sound(r[BalanceKey(b.condition) := BalanceRecord(b)], Add(fees, asset, -amount), deltas)
  {
    var b := Credited(r, Plain(owner, asset), amount, now);
    assert BalanceKey(Plain(owner, asset)) in r ==> RecordOk(r, BalanceKey(Plain(owner, asset)));
    PutBalance(r, fees, deltas, b, deltas);
  }

  lemma BalanceBooks(r: Records, fees: map<AssetId, int>, b: Balance)
    requires Balanced(r, fees) && (BalanceKey(b.condition) in r ==> RecordOk(r, BalanceKey(b.condition)))
    ensures Balanced(r[BalanceKey(b.condition) := BalanceRecord(b)],
                     Add(fees, b.condition.asset, AmountOf(r, b.condition) - b.amount))
  {
    var r' := r[BalanceKey(b.condition) := BalanceRecord(b)];
    forall a ensures Holdings(r', a) + At(Add(fees, b.condition.asset, AmountOf(r, b.condition) - b.amount), a) == Supply(r', a) + PaidTwice(r', a) {
      HoldingsStore(r, BalanceKey(b.condition), BalanceRecord(b), a);
    }
  }

  lemma BalanceTallies(r: Records, deltas: map<AccountId, int>, b: Balance, deltas': map<AccountId, int>)
    requires RecordsOk(r) && Tallied(r, deltas)
    requires Adjusted(r, deltas, if b.condition.asset == BASE_ASSET then b.condition.slate else 0,
                      b.amount - AmountOf(r, b.condition), deltas')
    ensures Tallied(r[BalanceKey(b.condition) := BalanceRecord(b)], deltas')
  {
    var r' := r[BalanceKey(b.condition) := BalanceRecord(b)];
    assert BalanceKey(b.condition) in r ==> RecordOk(r, BalanceKey(b.condition));
    forall d | IsDelegate(r', d) ensures TallyOf(r', d) + At(deltas', d) == Votes(r', d) {
      BalanceVotes(r, b, d);
      assert RecordOk(r, AccountKey(d));
    }
  }

  lemma BalanceVotes(r: Records, b: Balance, d: AccountId)
    requires BalanceKey(b.condition) in r ==> RecordOk(r, BalanceKey(b.condition))
    ensures Votes(r[BalanceKey(b.condition) := BalanceRecord(b)], d) ==
            Votes(r, d) + (if b.condition.asset == BASE_ASSET && InSlate(r, b.condition.slate, d)
                           then b.amount - AmountOf(r, b.condition) else 0)
  {
    VotesStore(r, BalanceKey(b.condition), BalanceRecord(b), d);
  }

  lemma SlatesNameDelegates(r: Records, slate: SlateId)
    requires RecordsOk(r)
    ensures forall d | d >= 0 && InSlate(r, slate, d) :: IsDelegate(r, d)
  {
    if GetSlate(r, slate).Some? {
      assert RecordOk(r, SlateKey(slate));
    }
  }

  /** A record that carries no votes leaves every tally alone. */
  lemma NoVotes(r: Records, k: Key, rec: Record, d: AccountId)
    requires !k.SlateKey? && !k.BalanceKey? && !rec.BalanceRecord?
    requires k in r ==> !r[k].BalanceRecord?
    ensures Votes(r[k := rec], d) == Votes(r, d)
  {
    VotesStore(r, k, rec, d);
  }

  /** Records that are neither accounts, slates nor balances: the running total pays for their worth. */
  lemma PutPlain(r: Records, fees: map<AssetId, int>, deltas: map<AccountId, int>, k: Key, rec: Record, fees': map<AssetId, int>)
    requires Sound(r, fees, deltas)
    requires !k.SlateKey? && !k.BalanceKey? && !k.AccountKey? && !k.ReferenceKey? && RecordOk(r[k := rec], k)
    requires forall a {:trigger At(fees', a)} ::
               At(fees', a) == At(fees, a) + WorthAt(r, k, a) - Worth(rec, a) + Supply(r[k := rec], a) - Supply(r, a)
    ensures Sound(r[k := rec], fees', deltas)
  {
    var r' := r[k := rec];
    assert k in r ==> RecordOk(r, k);
    StoreKeepsRecordsOk(r, k, rec);
    ChargedStore(r, k, rec);
    OtherKeysUnique(r, k, rec);
    forall a ensures Holdings(r', a) + At(fees', a) == Supply(r', a) + PaidTwice(r', a) {
      HoldingsStore(r, k, rec, a);
    }
    forall d | IsDelegate(r', d) ensures TallyOf(r', d) + At(deltas, d) == Votes(r', d) {
      NoVotes(r, k, rec, d);
    }
  }

  /** Fees collected leave the running total, new supply enters it, and collateral is paid in base shares. */
  lemma PutAsset(r: Records, fees: map<AssetId, int>, deltas: map<AccountId, int>, before: Asset, after: Asset)
    requires Sound(r, fees, deltas) && after.id == before.id && after.collectedFees >= 0
    requires if AssetKey(after.id) in r then r[AssetKey(after.id)] == AssetRecord(before)
             else before.collectedFees == before.currentSupply == before.currentCollateral == 0
    requires after.id == BASE_ASSET ==> after.issuer.God?
    ensures Sound(r[AssetKey(after.id) := AssetRecord(after)],
                  Add(Add(fees, after.id, (after.currentSupply - before.currentSupply) - (after.collectedFees - before.collectedFees)),
                      BASE_ASSET, before.currentCollateral - after.currentCollateral), deltas)
  {
    PutPlain(r, fees, deltas, AssetKey(after.id), AssetRecord(after),
             Add(Add(fees, after.id, (after.currentSupply - before.currentSupply) - (after.collectedFees - before.collectedFees)),
                 BASE_ASSET, before.currentCollateral - after.currentCollateral));
  }

  /** The same when the collateral stays. */
  lemma PutAssetFees(r: Records, fees: map<AssetId, int>, deltas: map<AccountId, int>, before: Asset, after: Asset)
    requires Sound(r, fees, deltas) && after.id == before.id && after.collectedFees >= 0
    requires GetAsset(r, after.id) == Some(before) && after.currentCollateral == before.currentCollateral
    requires after.id == BASE_ASSET ==> after.issuer.God?
    ensures Sound(r[AssetKey(after.id) := AssetRecord(after)],
                  Add(fees, after.id, (after.currentSupply - before.currentSupply) - (after.collectedFees - before.collectedFees)), deltas)
  {
    PutPlain(r, fees, deltas, AssetKey(after.id), AssetRecord(after),
             Add(fees, after.id, (after.currentSupply - before.currentSupply) - (after.collectedFees - before.collectedFees)));
  }

  function LeftOf(r: Records, id: PacketId): int {
    if GetPacket(r, id).Some? then LeftAmount(GetPacket(r, id).value.shares) else 0
  }

  /** Shares put into a packet leave the running total; claimed shares come back to it. */
  lemma PutPacket(r: Records, fees: map<AssetId, int>, deltas: map<AccountId, int>, p: Packet)
    requires Sound(r, fees, deltas) && forall s | s in p.shares :: s.amount >= 0
    requires GetPacket(r, p.id).Some? ==> GetPacket(r, p.id).value.asset == p.asset
    ensures Sound(r[PacketKey(p.id) := PacketRecord(p)],
                  Add(fees, p.asset, LeftOf(r, p.id) - LeftAmount(p.shares)), deltas)
  {
    assert PacketKey(p.id) in r ==> RecordOk(r, PacketKey(p.id));
    PutPlain(r, fees, deltas, PacketKey(p.id), PacketRecord(p), Add(fees, p.asset, LeftOf(r, p.id) - LeftAmount(p.shares)));
  }

  /** The pool of the note operation. */
  function Pool(r: Records): map<AssetId, int> {
    if RewardKey in r && r[RewardKey].RewardRecord? then r[RewardKey].fees else map[]
  }

  lemma PutReward(r: Records, fees: map<AssetId, int>, deltas: map<AccountId, int>, a: AssetId, x: int)
    requires Sound(r, fees, deltas) && At(Pool(r), a) + x >= 0
    ensures Sound(r[RewardKey := RewardRecord(Add(Pool(r), a, x))], Add(fees, a, -x), deltas)
  {
    assert RecordOk(r, RewardKey);
    PutPlain(r, fees, deltas, RewardKey, RewardRecord(Add(Pool(r), a, x)), Add(fees, a, -x));
  }

  lemma PutMessage(r: Records, fees: map<AssetId, int>, deltas: map<AccountId, int>, k: Key, amount: int)
    requires Sound(r, fees, deltas) && (k.BurnKey? || k.AdKey? || k.NoteKey?)
    ensures Sound(r[k := MessageRecord(amount)], fees, deltas)
  {
    var rec := MessageRecord(amount);
    assert k in r ==> RecordOk(r, k);
    forall a
      ensures At(fees, a) == At(fees, a) + WorthAt(r, k, a) - Worth(rec, a) + Supply(r[k := rec], a) - Supply(r, a)
    {
      assert WorthAt(r, k, a) == 0 && Worth(rec, a) == 0;
    }
    PutPlain(r, fees, deltas, k, rec, fees);
  }

  /** A slate is stored before any base balance refers to it, so it brings no votes. */
  lemma PutSlate(r: Records, fees: map<AssetId, int>, deltas: map<AccountId, int>, id: SlateId, slate: set<AccountId>)
    requires Sound(r, fees, deltas) && SlateKey(id) !in r
    requires forall d | d in slate && d >= 0 :: IsDelegate(r, d)
    ensures Sound(r[SlateKey(id) := SlateRecord(slate)], fees, deltas)
  {
    var k, rec := SlateKey(id), SlateRecord(slate);
    var r' := r[k := rec];
    assert forall d | d in slate && d >= 0 :: IsDelegate(r', d);
    StoreKeepsRecordsOk(r, k, rec);
    ChargedStore(r, k, rec);
    OtherKeysUnique(r, k, rec);
    SlateBooks(r, fees, id, slate);
    forall d | IsDelegate(r', d) ensures TallyOf(r', d) + At(deltas, d) == Votes(r', d) {
      NewSlateHasNoVotes(r, id, slate, d);
    }
  }

  lemma SlateBooks(r: Records, fees: map<AssetId, int>, id: SlateId, slate: set<AccountId>)
    requires Balanced(r, fees) && SlateKey(id) !in r
    ensures Balanced(r[SlateKey(id) := SlateRecord(slate)], fees)
  {
    var r' := r[SlateKey(id) := SlateRecord(slate)];
    forall a ensures Holdings(r', a) + At(fees, a) == Supply(r', a) + PaidTwice(r', a) {
      HoldingsStore(r, SlateKey(id), SlateRecord(slate), a);
    }
  }

  lemma NewSlateHasNoVotes(r: Records, id: SlateId, slate: set<AccountId>, d: AccountId)
    requires RecordsOk(r) && SlateKey(id) !in r
    ensures Votes(r[SlateKey(id) := SlateRecord(slate)], d) == Votes(r, d)
  {
    var r' := r[SlateKey(id) := SlateRecord(slate)];
    forall k | k in r ensures VoteWeight(r', k, d) == VoteWeight(r, k, d) {
      assert RecordOk(r, k);
    }
    assert VoteMap(r', d) == VoteMap(r, d)[SlateKey(id) := 0];
    TotalUpdate(VoteMap(r, d), SlateKey(id), 0);
  }

  function PayOf(r: Records, id: AccountId): int {
    if IsDelegate(r, id) then GetAccount(r, id).value.delegate.value.payBalance else 0
  }

  /** An account is written: pay moves against the running total, and the delegate's tally moves with
      its pay. A new delegate starts with no votes because no slate can name it yet. */
  lemma PutAccount(r: Records, fees: map<AssetId, int>, deltas: map<AccountId, int>, acc: Account, delta: int)
    requires Sound(r, fees, deltas) && acc.id > 0
    requires acc.IsDelegate() ==> acc.delegate.value.payBalance >= 0
    requires IsDelegate(r, acc.id) ==> acc.IsDelegate()
    requires TallyMoves(r, acc, delta)
    requires SameCharges(r, acc) && KeysAvailable(r, acc)
    ensures Sound(r[AccountKey(acc.id) := AccountRecord(acc)],
                  Add(fees, BASE_ASSET, PayOf(r, acc.id) - (if acc.IsDelegate() then acc.delegate.value.payBalance else 0)),
                  if delta == 0 then deltas else Add(deltas, acc.id, delta))
  {
    assert AccountKey(acc.id) in r ==> RecordOk(r, AccountKey(acc.id));
    StoreKeepsRecordsOk(r, AccountKey(acc.id), AccountRecord(acc));
    ChargedStore(r, AccountKey(acc.id), AccountRecord(acc));
    AccountKeysUnique(r, acc);
    AccountBooks(r, fees, acc);
    AccountTallies(r, deltas, acc, delta);
  }

  /** The tally of an account that is about to be written is off by exactly `delta`. */
  ghost predicate TallyMoves(r: Records, acc: Account, delta: int) {
    var tally := if IsDelegate(r, acc.id) then TallyOf(r, acc.id) else 0;
    if acc.IsDelegate() then acc.delegate.value.votesFor - acc.delegate.value.payBalance + delta == tally
    else delta == 0
  }

  /** The account is charged as before. */
  ghost predicate SameCharges(r: Records, acc: Account) {
    && Charge(AccountRecord(acc), Produced) == ChargeAt(r, AccountKey(acc.id), Produced)
    && Charge(AccountRecord(acc), Missed) == ChargeAt(r, AccountKey(acc.id), Missed)
  }

  lemma AccountBooks(r: Records, fees: map<AssetId, int>, acc: Account)
    requires Balanced(r, fees) && (AccountKey(acc.id) in r ==> RecordOk(r, AccountKey(acc.id)))
    ensures Balanced(r[AccountKey(acc.id) := AccountRecord(acc)],
                     Add(fees, BASE_ASSET, PayOf(r, acc.id) - (if acc.IsDelegate() then acc.delegate.value.payBalance else 0)))
  {
    var r', fees' := r[AccountKey(acc.id) := AccountRecord(acc)],
      Add(fees, BASE_ASSET, PayOf(r, acc.id) - (if acc.IsDelegate() then acc.delegate.value.payBalance else 0));
    forall a ensures Holdings(r', a) + At(fees', a) == Supply(r', a) + PaidTwice(r', a) {
      HoldingsStore(r, AccountKey(acc.id), AccountRecord(acc), a);
    }
  }

  lemma AccountTallies(r: Records, deltas: map<AccountId, int>, acc: Account, delta: int)
    requires RecordsOk(r) && Tallied(r, deltas) && acc.id > 0 && TallyMoves(r, acc, delta)
    requires forall d | d in deltas :: IsDelegate(r, d)
    ensures Tallied(r[AccountKey(acc.id) := AccountRecord(acc)], if delta == 0 then deltas else Add(deltas, acc.id, delta))
  {
    var r', deltas' := r[AccountKey(acc.id) := AccountRecord(acc)], if delta == 0 then deltas else Add(deltas, acc.id, delta);
    assert AccountKey(acc.id) in r ==> RecordOk(r, AccountKey(acc.id));
    forall d | IsDelegate(r', d) ensures TallyOf(r', d) + At(deltas', d) == Votes(r', d) {
      NoVotes(r, AccountKey(acc.id), AccountRecord(acc), d);
      if !IsDelegate(r, d) {
        UnnamedHasNoVotes(r, d);
      }
    }
  }

  function CountedSlot(s: Reference, duty: Duty): Reference {
    if duty.Produced? then s.(produced := s.produced + 1) else s.(missed := s.missed + 1)
  }

  function ChargedSlot(info: Delegate, duty: Duty): Delegate {
    if duty.Produced? then info.(blocksProduced := info.blocksProduced + 1) else info.(blocksMissed := info.blocksMissed + 1)
  }

  /** A slot is counted and charged to a delegate, whose votes and pay stay. */
  lemma PutCharge(r: Records, fees: map<AssetId, int>, deltas: map<AccountId, int>, acc: Account, duty: Duty, lastBlock: nat)
    requires Sound(r, fees, deltas) && GetAccount(r, acc.id) == Some(acc) && acc.IsDelegate()
    ensures var acc' := acc.(delegate := Some(ChargedSlot(acc.delegate.value, duty).(lastBlockProduced := lastBlock)));
            Sound(r[AccountKey(acc.id) := AccountRecord(acc')][ReferenceKey := ReferenceRecord(CountedSlot(ReferenceOf(r), duty))], fees, deltas)
  {
    var acc' := acc.(delegate := Some(ChargedSlot(acc.delegate.value, duty).(lastBlockProduced := lastBlock)));
    var r1 := r[AccountKey(acc.id) := AccountRecord(acc')];
    assert RecordOk(r, AccountKey(acc.id));
    StoreKeepsRecordsOk(r, AccountKey(acc.id), AccountRecord(acc'));
    ChargedStore(r, AccountKey(acc.id), AccountRecord(acc'));
    OwnKeysAvailable(r, acc');
    AccountKeysUnique(r, acc');
    OtherKeysUnique(r1, ReferenceKey, ReferenceRecord(CountedSlot(ReferenceOf(r), duty)));
    AccountBooks(r, fees, acc');
    AccountTallies(r, deltas, acc', 0);
    CountSlot(r1, Add(fees, BASE_ASSET, 0), deltas, CountedSlot(ReferenceOf(r), duty));
    assert forall a :: At(Add(fees, BASE_ASSET, 0), a) == At(fees, a);
  }

  /** The slot count carries neither shares nor votes. */
  lemma CountSlot(r: Records, fees: map<AssetId, int>, deltas: map<AccountId, int>, s: Reference)
    requires RecordsOk(r) && Balanced(r, fees) && Tallied(r, deltas) && s.paidTwice == ReferenceOf(r).paidTwice
    ensures var r' := r[ReferenceKey := ReferenceRecord(s)];
            && RecordsOk(r') && Balanced(r', fees) && Tallied(r', deltas)
            && forall duty: Duty {:trigger Charged(r', duty)} :: Charged(r', duty) == Charged(r, duty)
  {
    var rec := ReferenceRecord(s);
    var r' := r[ReferenceKey := rec];
    PutReference(r, deltas, s);
    assert ReferenceKey in r ==> RecordOk(r, ReferenceKey);
    forall a ensures Holdings(r', a) + At(fees, a) == Supply(r', a) + PaidTwice(r', a) {
      HoldingsStore(r, ReferenceKey, rec, a);
    }
  }

  lemma PutReference(r: Records, deltas: map<AccountId, int>, s: Reference)
    requires RecordsOk(r) && Tallied(r, deltas)
    ensures var r' := r[ReferenceKey := ReferenceRecord(s)];
            && RecordsOk(r') && Tallied(r', deltas)
            && forall duty: Duty {:trigger Charged(r', duty)} :: Charged(r', duty) == Charged(r, duty)
  {
    var rec := ReferenceRecord(s);
    var r' := r[ReferenceKey := rec];
    assert ReferenceKey in r ==> RecordOk(r, ReferenceKey);
    StoreKeepsRecordsOk(r, ReferenceKey, rec);
    ChargedStore(r, ReferenceKey, rec);
    forall d | IsDelegate(r', d) ensures TallyOf(r', d) + At(deltas, d) == Votes(r', d) {
      NoVotes(r, ReferenceKey, rec, d);
    }
  }

  /** Shares paid twice are noted. */
  lemma PutPaidTwice(r: Records, fees: map<AssetId, int>, deltas: map<AccountId, int>, asset: AssetId, paid: int)
    requires Sound(r, fees, deltas)
    ensures var ref := ReferenceOf(r).(paidTwice := Add(ReferenceOf(r).paidTwice, asset, paid));
            Sound(r[ReferenceKey := ReferenceRecord(ref)], Add(fees, asset, paid), deltas)
  {
    var rec := ReferenceRecord(ReferenceOf(r).(paidTwice := Add(ReferenceOf(r).paidTwice, asset, paid)));
    var r' := r[ReferenceKey := rec];
    PutReference(r, deltas, rec.reference);
    assert ReferenceKey in r ==> RecordOk(r, ReferenceKey);
    OtherKeysUnique(r, ReferenceKey, rec);
    forall a ensures Holdings(r', a) + At(Add(fees, asset, paid), a) == Supply(r', a) + PaidTwice(r', a) {
      HoldingsStore(r, ReferenceKey, rec, a);
    }
  }

  lemma UnnamedHasNoVotes(r: Records, d: AccountId)
    requires RecordsOk(r) && !IsDelegate(r, d) && d >= 0
    ensures Votes(r, d) == 0
  {
    forall k | k in r ensures VoteWeight(r, k, d) == 0 {
      if r[k].BalanceRecord? {
        SlatesNameDelegates(r, r[k].balance.condition.slate);
      }
    }
    TotalZero(VoteMap(r, d));
  }

  /** Only the values of the running totals matter, not which zero entries they hold. */
  lemma SameTotals(r: Records, fees: map<AssetId, int>, fees': map<AssetId, int>, deltas: map<AccountId, int>)
    requires Sound(r, fees, deltas) && forall a :: At(fees, a) == At(fees', a)
    ensures Sound(r, fees', deltas)
  {
  }

  lemma SameDeltas(r: Records, fees: map<AssetId, int>, deltas: map<AccountId, int>, deltas': map<AccountId, int>)
    requires Sound(r, fees, deltas) && (forall d :: At(deltas, d) == At(deltas', d)) && deltas'.Keys <= deltas.Keys
    ensures Sound(r, fees, deltas')
  {
  }
}
