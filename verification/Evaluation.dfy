/** Evaluation of one transaction: its operations change records and the running totals, and at the end
    the totals are turned into collected fees and votes. */
module Evaluation {
  import opened Prelude
  import opened Records
  import opened Sums
  import opened Ledger
  import opened Packets
  import opened Vesting
  import opened Operations

  class TransactionEvaluation {
    const ctx: Context

    var records: Records
    var lastAccountId: AccountId
    var lastAssetId: AssetId

    var feesPaid: map<AssetId, int>
    var minFees: map<AssetId, int>
    var voteDeltas: map<AccountId, int>
    var rpAccount: Option<AccountId>

    ghost function State(): Working
      reads this
    {
      Working(records, lastAccountId, lastAssetId, feesPaid, minFees, voteDeltas, rpAccount)
    }

    ghost predicate Is(w: Working)
      reads this
    {
      && records == w.records && lastAccountId == w.lastAccountId && lastAssetId == w.lastAssetId
      && feesPaid == w.fees && minFees == w.minFees && voteDeltas == w.deltas && rpAccount == w.rpAccount
    }

    ghost predicate Valid()
      reads this
    {
      Sound(records, feesPaid, voteDeltas)
    }

    constructor (ctx: Context, records: Records, lastAccountId: AccountId, lastAssetId: AssetId)
      requires Sound(records, map[], map[])
      ensures Valid() && this.ctx == ctx && State() == Fresh(Books(records, lastAccountId, lastAssetId))
    {
      this.ctx, this.records, this.lastAccountId, this.lastAssetId := ctx, records, lastAccountId, lastAssetId;
      feesPaid, minFees, voteDeltas, rpAccount := map[], map[], map[], None;
    }

    /** Adds the amount to the pending tally of every delegate the slate names. */
    method AdjustVote(slate: SlateId, amount: int) returns (error: Outcome)
      modifies this`voteDeltas
      ensures error.Some? <==> slate != 0 && GetSlate(records, slate).None?
      ensures error.None? ==> voteDeltas == if slate == 0 then old(voteDeltas) else Corrected(old(voteDeltas), GetSlate(records, slate).value, amount)
    {
      if slate == 0 {
        return None;
      }
      if GetSlate(records, slate).None? {
        return Some(UnknownSlate);
      }
      AdjustMembers(GetSlate(records, slate).value, amount);
      return None;
    }

    method AdjustMembers(members: set<AccountId>, amount: int)
      modifies this`voteDeltas
      ensures voteDeltas == Corrected(old(voteDeltas), members, amount)
    {
      var todo := members;
      assert members - todo == {};
      while todo != {}
        invariant todo <= members
        invariant voteDeltas == Corrected(old(voteDeltas), members - todo, amount)
      {
        ghost var witness' := SomeMember(todo);
        var id :| id in todo;
        CorrectedNext(old(voteDeltas), members - todo, amount, id);
        assert members - (todo - {id}) == (members - todo) + {id};
        if id >= 0 {
          voteDeltas := Add(voteDeltas, id, amount);
        }
        todo := todo - {id};
      }
      assert members - todo == members;
    }

    /* The running total of the transaction, and the records it is balanced against. In the stores below
       the ghost `total` is the total that balances the records at that moment; an operation is correct
       when the `feesPaid` it has built up agrees with it at the end. */

    method SubBalance(asset: AssetId, amount: int)
      modifies this`feesPaid
      ensures feesPaid == Add(old(feesPaid), asset, -amount)
    {
      feesPaid := Add(feesPaid, asset, -amount);
    }

    method AddBalance(asset: AssetId, amount: int)
      modifies this`feesPaid
      ensures feesPaid == Add(old(feesPaid), asset, amount)
    {
      feesPaid := Add(feesPaid, asset, amount);
    }

    method RequireFee(asset: AssetId, amount: int)
      modifies this`minFees
      ensures minFees == Add(old(minFees), asset, amount)
    {
      minFees := Add(minFees, asset, amount);
    }

    /** Stores a balance; base shares under a slate first move `votes` votes. */
    method StoreBalance(b: Balance, votes: int, ghost total: map<AssetId, int>) returns (error: Outcome)
      requires Sound(records, total, voteDeltas) && b.amount >= 0
      requires b.condition.asset == BASE_ASSET && b.condition.slate != 0 ==> votes == b.amount - AmountOf(records, b.condition)
      modifies this`records, this`voteDeltas
      ensures error.None? <==> (b.condition.asset == BASE_ASSET && b.condition.slate != 0 ==> GetSlate(old(records), b.condition.slate).Some?)
      ensures error.None? ==> records == old(records)[BalanceKey(b.condition) := BalanceRecord(b)]
      ensures error.None? ==> voteDeltas == BalanceDeltas(old(voteDeltas), old(records), b.condition, votes)
      ensures error.None? ==> Sound(records, Add(total, b.condition.asset, AmountOf(old(records), b.condition) - b.amount), voteDeltas)
    {
      if b.condition.asset == BASE_ASSET && b.condition.slate != 0 {
        error := AdjustVote(b.condition.slate, votes);
        if error.Some? {
          return;
        }
        CorrectedAdjusts(records, old(voteDeltas), b.condition.slate, votes);
      }
      PutBalance(records, total, old(voteDeltas), b, voteDeltas);
      records := records[BalanceKey(b.condition) := BalanceRecord(b)];
      error := None;
    }

    /** Adds shares to the plain balance of an owner, creating it when needed. */
    method CreditOwner(owner: Address, asset: AssetId, amount: int, ghost total: map<AssetId, int>)
      requires Sound(records, total, voteDeltas) && amount >= 0
      modifies this`records
      ensures records == old(records)[BalanceKey(Plain(owner, asset)) := BalanceRecord(Credited(old(records), Plain(owner, asset), amount, ctx.now))]
      ensures Sound(records, Add(total, asset, -amount), voteDeltas)
    {
      var b := Credited(records, Plain(owner, asset), amount, ctx.now);
      PutCredit(records, total, voteDeltas, owner, asset, amount, ctx.now);
      records := records[BalanceKey(b.condition) := BalanceRecord(b)];
    }

    /** Writes an asset whose collateral stays. */
    method StoreAsset(before: Asset, after: Asset, ghost total: map<AssetId, int>)
      requires Sound(records, total, voteDeltas) && after.id == before.id && after.collectedFees >= 0
      requires GetAsset(records, after.id) == Some(before) && after.currentCollateral == before.currentCollateral
      requires after.id == BASE_ASSET ==> after.issuer.God?
      modifies this`records
      ensures records == old(records)[AssetKey(after.id) := AssetRecord(after)]
      ensures Sound(records, Add(total, after.id, (after.currentSupply - before.currentSupply) - (after.collectedFees - before.collectedFees)), voteDeltas)
    {
      PutAssetFees(records, total, voteDeltas, before, after);
      records := records[AssetKey(after.id) := AssetRecord(after)];
    }

    method StorePacket(p: Packet, ghost total: map<AssetId, int>)
      requires Sound(records, total, voteDeltas) && forall s | s in p.shares :: s.amount >= 0
      requires GetPacket(records, p.id).Some? ==> GetPacket(records, p.id).value.asset == p.asset
      modifies this`records
      ensures records == old(records)[PacketKey(p.id) := PacketRecord(p)]
      ensures Sound(records, Add(total, p.asset, LeftOf(old(records), p.id) - LeftAmount(p.shares)), voteDeltas)
    {
      PutPacket(records, total, voteDeltas, p);
      records := records[PacketKey(p.id) := PacketRecord(p)];
    }

    method StoreMessage(k: Key, amount: int, ghost total: map<AssetId, int>)
      requires Sound(records, total, voteDeltas) && (k.BurnKey? || k.AdKey? || k.NoteKey?)
      modifies this`records
      ensures records == old(records)[k := MessageRecord(amount)]
      ensures Sound(records, total, voteDeltas)
    {
      PutMessage(records, total, voteDeltas, k, amount);
      records := records[k := MessageRecord(amount)];
    }

    /** Writes an account; `delta` is the correction of its tally that the operation has recorded. */
    method StoreAccount(acc: Account, ghost total: map<AssetId, int>, ghost before: map<AccountId, int>, ghost delta: int)
      requires Sound(records, total, before) && acc.id > 0
      requires voteDeltas == if delta == 0 then before else Add(before, acc.id, delta)
      requires acc.IsDelegate() ==> acc.delegate.value.payBalance >= 0
      requires IsDelegate(records, acc.id) ==> acc.IsDelegate()
      requires TallyMoves(records, acc, delta)
      requires SameCharges(records, acc) && KeysAvailable(records, acc)
      modifies this`records
      ensures records == old(records)[AccountKey(acc.id) := AccountRecord(acc)]
      ensures Sound(records, Add(total, BASE_ASSET, PayOf(old(records), acc.id) - PayOf(records, acc.id)), voteDeltas)
    {
      PutAccount(records, total, before, acc, delta);
      records := records[AccountKey(acc.id) := AccountRecord(acc)];
    }

    /** Writes an account whose pay and votes stay. */
    method StoreAccountData(acc: Account)
      requires Sound(records, feesPaid, voteDeltas) && acc.id > 0
      requires acc.IsDelegate() ==> acc.delegate.value.payBalance == PayOf(records, acc.id) >= 0
      requires TallyMoves(records, acc, 0)
      requires IsDelegate(records, acc.id) ==> acc.IsDelegate()
      requires SameCharges(records, acc) && KeysAvailable(records, acc)
      modifies this`records
      ensures records == old(records)[AccountKey(acc.id) := AccountRecord(acc)]
      ensures Sound(records, feesPaid, voteDeltas)
    {
      StoreAccount(acc, feesPaid, voteDeltas, 0);
      SameTotals(records, Add(feesPaid, BASE_ASSET, 0), feesPaid, voteDeltas);
    }

    /** Adds to the reward pool of the note operation. */
    method StoreReward(asset: AssetId, amount: int, ghost total: map<AssetId, int>)
      requires Sound(records, total, voteDeltas) && At(Pool(records), asset) + amount >= 0
      modifies this`records
      ensures records == old(records)[RewardKey := RewardRecord(Add(Pool(old(records)), asset, amount))]
      ensures Sound(records, Add(total, asset, -amount), voteDeltas)
    {
      assert RecordOk(records, RewardKey);
      PutReward(records, total, voteDeltas, asset, amount);
      records := records[RewardKey := RewardRecord(Add(records[RewardKey].fees, asset, amount))];
    }

    /* ---------------------------------------------------------------- balances */

    /** Moves shares of the running total into a balance. */
    method Deposit(amount: int, condition: Condition) returns (error: Outcome)
      requires Valid()
      modifies this`records, this`feesPaid, this`voteDeltas
      ensures error.None? <==> MayDeposit(old(records), amount, condition)
      ensures error.None? ==> Valid() && Is(AfterDeposit(ctx, old(State()), amount, condition))
    {
      if amount <= 0 || amount > MAX_DEPOSIT {
        return Some(NegativeDeposit);
      }
      if !(condition.lock.Signature? || condition.lock.MultiSig? || condition.lock.Escrow?) {
        return Some(InvalidWithdrawCondition);
      }
      var asset := GetAsset(records, condition.asset);
      if asset.None? || (asset.value.issuer.Market? && condition.slate != 0) {
        return Some(AssertionFailed);
      }
      if exists owner | owner in condition.Owners() :: !asset.value.IsWhitelisted(owner) {
        return Some(AssertionFailed);
      }
      error := EnterDeposit(amount, condition);
    }

    /** The effect of a deposit that has passed its checks. */
    method EnterDeposit(amount: int, condition: Condition) returns (error: Outcome)
      requires Valid() && amount > 0
      modifies this`records, this`feesPaid, this`voteDeltas
      ensures error.None? <==> (condition.asset == BASE_ASSET && condition.slate != 0 ==> GetSlate(old(records), condition.slate).Some?)
      ensures error.None? ==> Valid() && Is(AfterDeposit(ctx, old(State()), amount, condition))
    {
      assert BalanceKey(condition) in records ==> RecordOk(records, BalanceKey(condition));
      var b := BalanceOr(records, condition);
      b := b.(depositDate := if b.amount == 0 then ctx.now else MeanDate(b.depositDate, b.amount, ctx.now, amount));
      b := b.(amount := b.amount + amount, lastUpdate := ctx.now);
      SubBalance(condition.asset, amount);
      error := StoreBalance(b, amount, old(feesPaid));
    }

    /** Adds the yield a balance has earned, taken out of the collected fees of its asset. */
    method TakeYield(b: Balance, asset: Asset) returns (b': Balance)
      requires Sound(records, feesPaid, voteDeltas) && GetAsset(records, b.condition.asset) == Some(asset)
      requires GetBalance(records, b.condition) == Some(b)
      modifies this`records
      ensures Sound(records, Add(feesPaid, b.condition.asset, b'.amount - b.amount), voteDeltas)
      ensures var y := YieldDue(ctx, old(records), b.condition);
              && y >= 0 && (!asset.issuer.Market? ==> y == 0) && records == AfterYield(old(records), asset, y)
              && b' == b.(amount := b.amount + y, depositDate := if y > 0 then ctx.now else b.depositDate)
    {
      b' := b;
      assert RecordOk(records, AssetKey(b.condition.asset));
      if asset.issuer.Market? {
        var y := Yield(ctx.now - b.depositDate, b.amount, asset.collectedFees, asset.currentSupply);
        YieldIsCovered(ctx.now - b.depositDate, b.amount, asset.collectedFees, asset.currentSupply);
        if y > 0 {
          StoreAsset(asset, asset.(collectedFees := asset.collectedFees - y), feesPaid);
          b' := b.(amount := b.amount + y, depositDate := ctx.now);
        }
      }
      if b' == b {
        SameTotals(records, feesPaid, Add(feesPaid, asset.id, 0), voteDeltas);
      }
    }

    /** Moves shares of a balance into the running total, after adding the yield of a market-issued asset. */
    method Withdraw(id: Condition, amount: int) returns (error: Outcome)
      requires Valid()
      modifies this`records, this`feesPaid, this`minFees, this`voteDeltas
      ensures error.None? <==> MayWithdrawFrom(ctx, old(records), id, amount)
      ensures error.None? ==> Valid() && Is(AfterWithdraw(ctx, old(State()), id, amount))
    {
      if amount <= 0 {
        return Some(NegativeWithdraw);
      }
      if GetBalance(records, id).None? {
        return Some(UnknownBalance);
      }
      if GetAsset(records, id.asset).None? {
        return Some(AssertionFailed);
      }
      var b, asset := GetBalance(records, id).value, GetAsset(records, id.asset).value;
      assert RecordOk(records, BalanceKey(id)) && RecordOk(records, AssetKey(id.asset));
      ctx.RefusedUnlessMaySpend(b, asset, amount);
      error := ctx.WithdrawRefused(b, asset, amount);
      if error.Some? {
        return;
      }
      SpendableIsCovered(b, ctx.now);
      error := TakeOut(b, asset, amount);
    }

    /** The effect of a withdrawal that has passed its checks. */
    method TakeOut(b: Balance, asset: Asset, amount: int) returns (error: Outcome)
      requires Sound(records, feesPaid, voteDeltas) && GetAsset(records, b.condition.asset) == Some(asset)
      requires GetBalance(records, b.condition) == Some(b) && 0 < amount <= b.amount
      requires b.condition.asset == BASE_ASSET ==> !asset.issuer.Market?
      modifies this`records, this`feesPaid, this`minFees, this`voteDeltas
      ensures error.None?
      ensures Sound(records, feesPaid, voteDeltas) && Is(AfterWithdraw(ctx, old(State()), b.condition, amount))
    {
      error := TakeShares(b, asset, amount);
      RequireWithdrawalFee(asset);
      AddBalance(b.condition.asset, amount);
    }

    method TakeShares(b: Balance, asset: Asset, amount: int) returns (error: Outcome)
      requires Sound(records, feesPaid, voteDeltas) && GetAsset(records, b.condition.asset) == Some(asset)
      requires GetBalance(records, b.condition) == Some(b) && 0 < amount <= b.amount
      requires b.condition.asset == BASE_ASSET ==> !asset.issuer.Market?
      modifies this`records, this`voteDeltas
      ensures error.None? && Sound(records, Add(feesPaid, b.condition.asset, amount), voteDeltas)
      ensures records == AfterWithdraw(ctx, old(State()), b.condition, amount).records
      ensures voteDeltas == AfterWithdraw(ctx, old(State()), b.condition, amount).deltas
    {
      assert RecordOk(records, AssetKey(b.condition.asset));
      var b' := TakeYield(b, asset);
      error := StoreRest(b', b.amount, amount);
    }

    /** Stores what is left of a balance to which the yield has been added. */
    method StoreRest(b: Balance, held: int, amount: int) returns (error: Outcome)
      requires Sound(records, Add(feesPaid, b.condition.asset, b.amount - held), voteDeltas) && BalanceKey(b.condition) in records
      requires AmountOf(records, b.condition) == held && 0 < amount <= held <= b.amount
      requires b.condition.asset == BASE_ASSET ==> b.amount == held
      modifies this`records, this`voteDeltas
      ensures error.None?
      ensures Sound(records, Add(feesPaid, b.condition.asset, amount), voteDeltas)
      ensures records == old(records)[BalanceKey(b.condition) := BalanceRecord(b.(amount := b.amount - amount, lastUpdate := ctx.now))]
      ensures voteDeltas == BalanceDeltas(old(voteDeltas), old(records), b.condition, -amount)
    {
      assert RecordOk(records, BalanceKey(b.condition));
      error := StoreBalance(b.(amount := b.amount - amount, lastUpdate := ctx.now), -amount, Add(feesPaid, b.condition.asset, b.amount - held));
      AddTwice(feesPaid, b.condition.asset, b.amount - held, held - (b.amount - amount));
    }

    /** The largest withdrawal fee of an asset applies, once, unless its authority has signed. */
    method RequireWithdrawalFee(asset: Asset)
      modifies this`minFees
      ensures minFees == FeeRaised(ctx, old(minFees), asset)
    {
      if asset.withdrawalFee != 0 && !ctx.VerifyAuthority(asset.authority) && At(minFees, asset.id) < asset.withdrawalFee {
        minFees := minFees[asset.id := asset.withdrawalFee];
      }
    }

    /** Takes shares of the running total out of circulation. */
    method Burn(amount: int, asset: AssetId, account: AccountId, messageSize: nat) returns (error: Outcome)
      requires Valid()
      modifies this`records, this`feesPaid
      ensures error.None? <==> MayBurn(ctx, old(records), amount, asset, account, messageSize)
      ensures error.None? ==> Valid() && Is(AfterBurn(ctx, old(State()), amount, asset, account))
    {
      if amount <= 0 {
        return Some(NegativeDeposit);
      }
      if messageSize > 0 && asset != BASE_ASSET {
        return Some(AssertionFailed);
      }
      if asset == BASE_ASSET && amount < (messageSize / 1024 + 1) * BURN_FEE {
        return Some(AssertionFailed);
      }
      if GetAsset(records, asset).None? {
        return Some(AssertionFailed);
      }
      assert RecordOk(records, AssetKey(asset));
      var a := GetAsset(records, asset).value;
      if a.issuer.Market? {
        return Some(AssertionFailed);
      }
      if account != 0 && GetAccount(records, AbsId(account)).None? {
        return Some(AssertionFailed);
      }
      if BurnKey(account, ctx.trx) in records {
        return Some(AssertionFailed);
      }
      Destroy(amount, a, account);
      error := None;
    }

    /** The effect of a burn that has passed its checks. */
    method Destroy(amount: int, a: Asset, account: AccountId)
      requires Valid() && GetAsset(records, a.id) == Some(a) && BurnKey(account, ctx.trx) !in records
      modifies this`records, this`feesPaid
      ensures Valid() && Is(AfterBurn(ctx, old(State()), amount, a.id, account))
    {
      assert RecordOk(records, AssetKey(a.id));
      SubBalance(a.id, amount);
      StoreAsset(a, a.(currentSupply := a.currentSupply - amount), old(feesPaid));
      StoreMessage(BurnKey(account, ctx.trx), amount, feesPaid);
    }

    /** Pays the owner of an advertisement space what exceeds the message fee. */
    method Advertise(amount: int, asset: AssetId, owner: AccountId, publisher: AccountId, messageSize: nat, signer: Address)
      returns (error: Outcome)
      requires Valid()
      modifies this`records, this`feesPaid, this`minFees, this`rpAccount
      ensures error.None? <==> MayAdvertise(ctx, old(records), amount, asset, owner, publisher, messageSize, signer)
      ensures error.None? ==> Valid() && Is(AfterAd(ctx, old(State()), amount, owner, publisher, messageSize))
    {
      if amount <= 0 {
        return Some(NegativeDeposit);
      }
      if messageSize == 0 || asset != BASE_ASSET {
        return Some(AssertionFailed);
      }
      var required := AdPrice(messageSize);
      if amount < required {
        return Some(AssertionFailed);
      }
      RequireFee(asset, required);
      if owner == 0 || GetAccount(records, AbsId(owner)).None? {
        return Some(AssertionFailed);
      }
      PayOwner(GetAccount(records, AbsId(owner)).value.ActiveKey(), amount - required);
      error := SignAd(amount, owner, publisher, signer);
    }

    /** Moves base shares of the running total to the plain balance of an owner. */
    method PayOwner(owner: Address, pay: int)
      requires Valid() && pay >= 0
      modifies this`records, this`feesPaid
      ensures Valid() && feesPaid == Add(old(feesPaid), BASE_ASSET, -pay)
      ensures records == old(records)[BalanceKey(Plain(owner, BASE_ASSET)) := BalanceRecord(Credited(old(records), Plain(owner, BASE_ASSET), pay, ctx.now))]
    {
      CreditOwner(owner, BASE_ASSET, pay, feesPaid);
      SubBalance(BASE_ASSET, pay);
    }

    /** Writes the advertisement of a publisher that has signed it. */
    method SignAd(amount: int, owner: AccountId, publisher: AccountId, signer: Address) returns (error: Outcome)
      requires Valid()
      modifies this`records, this`rpAccount
      ensures error.None? <==>
                && publisher != 0 && GetAccount(old(records), AbsId(publisher)).Some? && AdKey(owner, ctx.trx) !in old(records)
                && GetAccount(old(records), AbsId(publisher)).value.ActiveKey() == signer
      ensures error.None? ==> Valid() && rpAccount == Some(AbsId(publisher))
      ensures error.None? ==> records == old(records)[AdKey(owner, ctx.trx) := MessageRecord(amount)]
    {
      if publisher == 0 || GetAccount(records, AbsId(publisher)).None? {
        return Some(AssertionFailed);
      }
      rpAccount := Some(AbsId(publisher));
      if GetAccount(records, AbsId(publisher)).value.ActiveKey() != signer || AdKey(owner, ctx.trx) in records {
        return Some(AssertionFailed);
      }
      StoreMessage(AdKey(owner, ctx.trx), amount, feesPaid);
      error := None;
    }

    /** Puts seven tenths of a note's price into the reward pool; the rest must be paid as a fee. */
    method WriteNote(amount: int, asset: AssetId, owner: AccountId, messageSize: nat, signer: Address) returns (error: Outcome)
      requires Valid()
      modifies this`records, this`feesPaid, this`minFees, this`rpAccount
      ensures error.None? <==> MayWriteNote(ctx, old(records), amount, asset, owner, messageSize, signer)
      ensures error.None? ==> Valid() && Is(AfterNote(ctx, old(State()), amount, owner))
    {
      if amount <= 0 {
        return Some(NegativeDeposit);
      }
      if messageSize == 0 || asset != BASE_ASSET || amount < (messageSize / 1024 + 1) * NOTE_FEE {
        return Some(AssertionFailed);
      }
      RequireFee(asset, amount * 3 / 10);
      FundReward(asset, amount - amount * 3 / 10);
      error := SignNote(amount, owner, signer);
    }

    /** Moves shares of the running total into the reward pool. */
    method FundReward(asset: AssetId, reward: int)
      requires Valid() && reward >= 0
      modifies this`records, this`feesPaid
      ensures Valid() && feesPaid == Add(old(feesPaid), asset, -reward)
      ensures records == old(records)[RewardKey := RewardRecord(Add(Pool(old(records)), asset, reward))]
    {
      assert RecordOk(records, RewardKey);
      StoreReward(asset, reward, feesPaid);
      SubBalance(asset, reward);
    }

    /** Writes the note of an account that has signed it. */
    method SignNote(amount: int, owner: AccountId, signer: Address) returns (error: Outcome)
      requires Valid()
      modifies this`records, this`rpAccount
      ensures error.None? <==>
                && GetAccount(old(records), AbsId(owner)).Some? && NoteKey(owner, ctx.trx) !in old(records)
                && GetAccount(old(records), AbsId(owner)).value.ActiveKey() == signer
      ensures error.None? ==> Valid() && rpAccount == Some(AbsId(owner)) && records == old(records)[NoteKey(owner, ctx.trx) := MessageRecord(amount)]
    {
      if GetAccount(records, AbsId(owner)).None? {
        return Some(AssertionFailed);
      }
      rpAccount := Some(AbsId(owner));
      if GetAccount(records, AbsId(owner)).value.ActiveKey() != signer || NoteKey(owner, ctx.trx) in records {
        return Some(AssertionFailed);
      }
      StoreMessage(NoteKey(owner, ctx.trx), amount, feesPaid);
      error := None;
    }

    /** Locks shares of the running total in a packet of random shares. */
    method CreatePacket(id: PacketId, amount: int, asset: AssetId, sender: AccountId, claimKey: Address, count: nat,
                        requiredRp: Option<int>, messageSize: nat, seed: nat) returns (error: Outcome)
      requires Valid()
      modifies this`records, this`feesPaid, this`minFees, this`rpAccount
      ensures error.None? <==> MaySendPacket(ctx, old(records), id, amount, asset, sender, count, messageSize)
      ensures error.None? ==> Valid() && Is(AfterPacket(old(State()), id, amount, sender, claimKey, count, requiredRp, seed))
    {
      if amount <= 0 {
        return Some(NegativeDeposit);
      }
      if messageSize == 0 || asset != BASE_ASSET || count == 0 || count > MAX_SHARES_PER_PACKET || messageSize >= 100 {
        return Some(AssertionFailed);
      }
      if amount < PACKET_FEE + count * PACKET_UNIT {
        return Some(AssertionFailed);
      }
      RequireFee(asset, PACKET_FEE);
      if GetAccount(records, AbsId(sender)).None? {
        return Some(AssertionFailed);
      }
      rpAccount := Some(AbsId(sender));
      if !ctx.Signed(GetAccount(records, AbsId(sender)).value.ownerKey) {
        return Some(MissingSignature);
      }
      if PacketKey(id) in records {
        return Some(AssertionFailed);
      }
      error := SplitAndFill(Packet(id, asset, amount, sender, claimKey, requiredRp, []), count, seed);
    }

    /** Splits the amount of a packet and fills it. */
    method SplitAndFill(packet: Packet, count: nat, seed: nat) returns (error: Outcome)
      requires Valid() && PacketKey(packet.id) !in records && 0 < count <= MAX_SHARES_PER_PACKET
      requires packet.amount >= PACKET_FEE + count * PACKET_UNIT
      modifies this`records, this`feesPaid
      ensures error.None? <==> (packet.amount / PACKET_UNIT) % TWO32 >= count || count == 1
      ensures error.None? ==> Valid() && SplitOf(packet.amount, count, seed).Some?
      ensures error.None? ==> feesPaid == Add(old(feesPaid), packet.asset, -LeftAmount(SplitOf(packet.amount, count, seed).value))
      ensures error.None? ==>
                records == old(records)[PacketKey(packet.id) := PacketRecord(packet.(shares := SplitOf(packet.amount, count, seed).value))]
    {
      var shares := Split(packet.amount, count, seed);
      SplitIs(packet.amount, count, seed);
      if shares.None? {
        return Some(AssertionFailed);
      }
      FillPacket(packet.(shares := shares.value), LeftAmount(shares.value));
      error := None;
    }

    /** Moves shares of the running total into a new packet. */
    method FillPacket(packet: Packet, used: int)
      requires Valid() && PacketKey(packet.id) !in records && LeftAmount(packet.shares) == used && forall s | s in packet.shares :: s.amount >= 0
      modifies this`records, this`feesPaid
      ensures Valid() && feesPaid == Add(old(feesPaid), packet.asset, -used)
      ensures records == old(records)[PacketKey(packet.id) := PacketRecord(packet)]
    {
      SubBalance(packet.asset, used);
      StorePacket(packet, old(feesPaid));
    }

    /** Pays the next share of a packet to an account. A claim in the name of the unclaimed marker leaves the share
        in the packet as well, so it is paid twice; every other claim keeps the books as they are. */
    method ClaimPacket(id: PacketId, to: AccountId) returns (error: Outcome)
      requires Valid()
      modifies this`records, this`feesPaid
      ensures error.None? <==> ctx.ClaimPays(old(records), id, to).Some?
      ensures error.None? ==> Valid() && Is(AfterClaim(ctx, old(State()), id, to))
    {
      if GetAccount(records, AbsId(to)).None? || GetPacket(records, id).None? {
        return Some(AssertionFailed);
      }
      assert RecordOk(records, PacketKey(id));
      var acc, packet := GetAccount(records, AbsId(to)).value, GetPacket(records, id).value;
      if !ctx.Signed(acc.ownerKey) || !ctx.Signed(packet.claimKey) {
        return Some(MissingSignature);
      }
      if packet.requiredRp.Some? && acc.rp < packet.requiredRp.value {
        return Some(AssertionFailed);
      }
      var claim := ClaimShare(packet.shares, to);
      if claim.Exhausted? {
        return None;
      }
      if claim.AlreadyClaimed? {
        return Some(AssertionFailed);
      }
      PayShare(acc, packet, to, claim);
      error := None;
    }

    /** The effect of a claim that has passed its checks. */
    method PayShare(acc: Account, packet: Packet, to: AccountId, claim: Claim)
      requires Sound(records, feesPaid, voteDeltas) && GetPacket(records, packet.id) == Some(packet)
      requires claim.Paid? && claim == ClaimOf(packet.shares, to)
      modifies this`records, this`feesPaid
      ensures Sound(records, feesPaid, voteDeltas)
      ensures var paid := packet.shares[claim.index].amount;
              && records == AfterShare(old(records), Plain(acc.ActiveKey(), packet.asset), packet.(shares := claim.shares), to, paid, ctx.now)
              && feesPaid == Add(Add(old(feesPaid), packet.asset, paid), packet.asset, -paid)
    {
      ghost var total := MoveShare(acc, packet, to, claim);
      ghost var paid := packet.shares[claim.index].amount;
      if to == UNCLAIMED && packet.shares[claim.index].amount > 0 {
        NoteTwice(packet.asset, packet.shares[claim.index].amount, total);
        total := Add(total, packet.asset, paid);
      }
      SameTotals(records, total, feesPaid, voteDeltas);
    }

    method MoveShare(acc: Account, packet: Packet, to: AccountId, claim: Claim) returns (ghost total: map<AssetId, int>)
      requires Sound(records, feesPaid, voteDeltas) && GetPacket(records, packet.id) == Some(packet)
      requires claim.Paid? && claim == ClaimOf(packet.shares, to)
      modifies this`records, this`feesPaid
      ensures var paid, target := packet.shares[claim.index].amount, Plain(acc.ActiveKey(), packet.asset);
              && paid >= 0
              && records == old(records)[BalanceKey(target) := BalanceRecord(Credited(old(records), target, paid, ctx.now))]
                                        [PacketKey(packet.id) := PacketRecord(packet.(shares := claim.shares))]
              && feesPaid == Add(Add(old(feesPaid), packet.asset, paid), packet.asset, -paid)
              && total == Add(Add(old(feesPaid), packet.asset, -paid), packet.asset, if to == UNCLAIMED then 0 else paid)
              && Sound(records, total, voteDeltas)
    {
      assert RecordOk(records, PacketKey(packet.id));
      FirstUnclaimedIsFree(packet.shares);
      var share := packet.shares[claim.index];
      assert share in packet.shares;
      CreditShare(acc.ActiveKey(), packet.asset, share.amount);
      LeftUpdate(packet.shares, claim.index, share.(claimant := to));
      total := Add(old(feesPaid), packet.asset, -share.amount);
      StorePacket(packet.(shares := claim.shares), total);
      total := Add(total, packet.asset, if to == UNCLAIMED then 0 else share.amount);
    }

    /** The share joins the running total and leaves it again for the balance of the claimant. */
    method CreditShare(owner: Address, asset: AssetId, amount: int)
      requires Sound(records, feesPaid, voteDeltas) && amount >= 0
      modifies this`records, this`feesPaid
      ensures records == old(records)[BalanceKey(Plain(owner, asset)) := BalanceRecord(Credited(old(records), Plain(owner, asset), amount, ctx.now))]
      ensures feesPaid == Add(Add(old(feesPaid), asset, amount), asset, -amount)
      ensures Sound(records, Add(old(feesPaid), asset, -amount), voteDeltas)
    {
      AddBalance(asset, amount);
      CreditOwner(owner, asset, amount, old(feesPaid));
      SubBalance(asset, amount);
    }

    /** Notes that shares were paid out and kept. */
    method NoteTwice(asset: AssetId, paid: int, ghost total: map<AssetId, int>)
      requires Sound(records, total, voteDeltas)
      modifies this`records
      ensures Sound(records, Add(total, asset, paid), voteDeltas)
      ensures records == old(records)[ReferenceKey := ReferenceRecord(Twice(ReferenceOf(old(records)), asset, paid))]
    {
      PutPaidTwice(records, total, voteDeltas, asset, paid);
      records := records[ReferenceKey := ReferenceRecord(Twice(ReferenceOf(records), asset, paid))];
    }

    /** Moves a base balance under another slate, for a fee that joins the running total. */
    method UpdateBalanceVote(id: Condition, newRestrictedOwner: Option<Address>, newSlate: SlateId) returns (error: Outcome)
      requires Valid()
      modifies this`records, this`feesPaid, this`voteDeltas
      ensures error.None? <==> MayVote(ctx, old(records), id, newRestrictedOwner, newSlate)
      ensures error.None? ==> Valid() && Is(AfterVote(ctx, old(State()), id, newRestrictedOwner, newSlate))
    {
      if GetBalance(records, id).None? || id.asset != BASE_ASSET || !id.lock.Signature? {
        return Some(AssertionFailed);
      }
      assert RecordOk(records, BalanceKey(id)) && RecordOk(records, AssetKey(BASE_ASSET));
      var b := GetBalance(records, id).value;
      if b.amount <= VOTE_UPDATE_FEE {
        return Some(AssertionFailed);
      }
      ctx.RefusedUnlessMayUpdateVote(b, newRestrictedOwner);
      error := ctx.VoteUpdateRefused(b, newRestrictedOwner);
      if error.Some? {
        return;
      }
      error := MoveVote(b, VoteTarget(id, newSlate), ctx.NewRestrictedOwner(b, newRestrictedOwner));
    }

    /** The effect of a vote update that has passed its checks. */
    method MoveVote(b: Balance, target: Condition, restrictedOwner: Option<Address>) returns (error: Outcome)
      requires Sound(records, feesPaid, voteDeltas) && GetBalance(records, b.condition) == Some(b) && b.amount > VOTE_UPDATE_FEE
      requires b.condition.asset == target.asset == BASE_ASSET
      modifies this`records, this`feesPaid, this`voteDeltas
      ensures error.None? <==> (target.slate != 0 ==> GetSlate(old(records), target.slate).Some?)
      ensures error.None? ==> Sound(records, feesPaid, voteDeltas) && Is(VoteMoved(old(State()), b, target, restrictedOwner, ctx.now))
    {
      error := EmptyAndRefill(b, target, restrictedOwner);
    }

    method EmptyAndRefill(b: Balance, target: Condition, restrictedOwner: Option<Address>) returns (error: Outcome)
      requires Sound(records, feesPaid, voteDeltas) && GetBalance(records, b.condition) == Some(b) && b.amount > VOTE_UPDATE_FEE
      requires b.condition.asset == target.asset == BASE_ASSET
      modifies this`records, this`feesPaid, this`voteDeltas
      ensures error.None? <==> (target.slate != 0 ==> GetSlate(old(records), target.slate).Some?)
      ensures error.None? ==> Sound(records, feesPaid, voteDeltas) && feesPaid == Add(old(feesPaid), BASE_ASSET, VOTE_UPDATE_FEE)
      ensures error.None? ==>
                var r := Emptied(old(records), b, ctx.now);
                && records == r[BalanceKey(target) := BalanceRecord(Refilled(r, b, target, restrictedOwner, ctx.now))]
                && voteDeltas == BalanceDeltas(BalanceDeltas(old(voteDeltas), old(records), b.condition, -b.amount), r, target, b.amount - VOTE_UPDATE_FEE)
    {
      error := Empty(b);
      AddBalance(BASE_ASSET, VOTE_UPDATE_FEE);
      error := Refill(b, target, restrictedOwner, Add(old(feesPaid), BASE_ASSET, b.amount));
      AddTwice(old(feesPaid), BASE_ASSET, b.amount, VOTE_UPDATE_FEE - b.amount);
    }

    /** First half of a vote update: the balance is emptied and its votes are withdrawn. */
    method Empty(b: Balance) returns (error: Outcome)
      requires Sound(records, feesPaid, voteDeltas) && GetBalance(records, b.condition) == Some(b)
      modifies this`records, this`voteDeltas
      ensures error.None? && records == Emptied(old(records), b, ctx.now)
      ensures Sound(records, Add(feesPaid, b.condition.asset, b.amount), voteDeltas)
      ensures voteDeltas == BalanceDeltas(old(voteDeltas), old(records), b.condition, -b.amount)
    {
      assert RecordOk(records, BalanceKey(b.condition));
      error := StoreBalance(b.(amount := 0, lastUpdate := ctx.now), -b.amount, feesPaid);
    }

    /** Second half: what is left after the fee goes to the target, with its votes. */
    method Refill(b: Balance, target: Condition, restrictedOwner: Option<Address>, ghost total: map<AssetId, int>) returns (error: Outcome)
      requires Sound(records, total, voteDeltas) && target.asset == BASE_ASSET && b.amount > VOTE_UPDATE_FEE
      modifies this`records, this`voteDeltas
      ensures error.None? <==> (target.slate != 0 ==> GetSlate(old(records), target.slate).Some?)
      ensures error.None? ==> Sound(records, Add(total, BASE_ASSET, VOTE_UPDATE_FEE - b.amount), voteDeltas)
      ensures error.None? ==> records == old(records)[BalanceKey(target) := BalanceRecord(Refilled(old(records), b, target, restrictedOwner, ctx.now))]
      ensures error.None? ==> voteDeltas == BalanceDeltas(old(voteDeltas), old(records), target, b.amount - VOTE_UPDATE_FEE)
    {
      assert BalanceKey(target) in records ==> RecordOk(records, BalanceKey(target));
      var found := GetBalance(records, target);
      var t := if found.Some? then found.value else b.(condition := target, amount := 0);
      t := t.(depositDate := if t.amount == 0 then ctx.now else MeanDate(b.depositDate, t.amount, ctx.now, b.amount),
              amount := t.amount + (b.amount - VOTE_UPDATE_FEE), lastUpdate := ctx.now, restrictedOwner := restrictedOwner);
      error := StoreBalance(t, b.amount - VOTE_UPDATE_FEE, total);
    }

    /** Defines a slate: its non-negative members must be delegates. A slate with the same id must be the same slate. */
    method DefineSlate(ids: seq<AccountId>) returns (error: Outcome)
      requires Valid()
      modifies this`records
      ensures error.None? <==> MayDefineSlate(ctx, old(records), ids)
      ensures error.None? ==> Valid() && Is(AfterSlate(ctx, old(State()), ids))
    {
      if ids == [] {
        return Some(AssertionFailed);
      }
      if |ids| > MAX_SLATE_SIZE {
        return Some(TooManyDelegates);
      }
      var slate: set<AccountId> := {};
      for i := 0 to |ids|
        invariant slate == set d | d in ids[..i]
        invariant forall d | d in slate && d >= 0 :: IsDelegate(records, d)
      {
        if ids[i] >= 0 && !IsDelegate(records, ids[i]) {
          return Some(AssertionFailed);
        }
        slate := slate + {ids[i]};
      }
      assert ids[..|ids|] == ids;
      var id := ctx.slateId(slate);
      if GetSlate(records, id).Some? {
        return if GetSlate(records, id).value == slate then None else Some(AssertionFailed);
      }
      assert SlateKey(id) in records ==> RecordOk(records, SlateKey(id));
      PutSlate(records, feesPaid, voteDeltas, id, slate);
      records := records[SlateKey(id) := SlateRecord(slate)];
      error := None;
    }

    /* ---------------------------------------------------------------- accounts */

    /** Registers an account, as a delegate when the pay rate is at most 100. Whether the name is well formed and
        its parent has signed is decided outside. A key cannot be set at time zero. */
    method RegisterAccount(name: string, ownerKey: Address, activeKey: Address, payRate: nat, nameOk: bool, extra: set<Address>)
      returns (error: Outcome)
      requires Valid() && IdsUpTo(records, lastAccountId)
      modifies this`records, this`lastAccountId, this`minFees
      ensures error.None? <==> MayRegister(ctx, old(records), name, ownerKey, activeKey, nameOk, extra)
      ensures error.None? ==> Valid() && AccountKey(lastAccountId) !in old(records)
      ensures error.None? ==> Is(AfterRegister(ctx, old(State()), name, ownerKey, activeKey, payRate))
    {
      if !nameOk || NameTaken(records, name) || Indexed(records, extra, ownerKey) || Indexed(records, extra, activeKey) {
        return Some(NameOrKeyRefused);
      }
      if ctx.now == 0 {
        return Some(AssertionFailed);
      }
      RequireRegistration(|name|, payRate);
      OpenAccount(NewAccount(lastAccountId + 1, name, ownerKey, activeKey, payRate, ctx.now, ctx.headNum), ownerKey, activeKey, extra);
      error := None;
    }

    method RequireRegistration(length: nat, payRate: nat)
      modifies this`minFees
      ensures minFees == Add(old(minFees), BASE_ASSET, AccountFee(length) + (if payRate <= 100 then DelegateFee(records, payRate) else 0))
    {
      RequireFee(BASE_ASSET, AccountFee(length));
      if payRate <= 100 {
        RequireFee(BASE_ASSET, DelegateFee(records, payRate));
      }
    }

    /** Stores a new account under the next id. */
    method OpenAccount(acc: Account, ghost ownerKey: Address, ghost activeKey: Address, ghost extra: set<Address>)
      requires Valid() && IdsUpTo(records, lastAccountId) && acc.id == lastAccountId + 1
      requires !Indexed(records, extra, ownerKey) && !Indexed(records, extra, activeKey)
      requires exists name, payRate :: acc == NewAccount(acc.id, name, ownerKey, activeKey, payRate, ctx.now, ctx.headNum)
      modifies this`records, this`lastAccountId
      ensures Valid() && lastAccountId == acc.id && AccountKey(acc.id) !in old(records)
      ensures records == old(records)[AccountKey(acc.id) := AccountRecord(acc)]
    {
      FreeKeyIsUnowned(records, extra, ownerKey);
      FreeKeyIsUnowned(records, extra, activeKey);
      ghost var name, payRate :| acc == NewAccount(acc.id, name, ownerKey, activeKey, payRate, ctx.now, ctx.headNum);
      NewAccountKeys(acc.id, name, ownerKey, activeKey, payRate, ctx.now, ctx.headNum);
      StoreAccountData(acc);
      lastAccountId := acc.id;
    }

    /** Changes keys or pay rate, or turns an account into a delegate. A delegate never turns back, and cannot
        be retracted while pay is left. */
    method UpdateAccount(id: AccountId, activeKey: Option<Address>, payRate: nat, extra: set<Address>) returns (error: Outcome)
      requires Valid()
      modifies this`records, this`minFees
      ensures error.None? <==> MayUpdate(ctx, old(records), id, activeKey, payRate, extra)
      ensures error.None? ==> Valid() && Is(AfterUpdate(ctx, old(State()), id, activeKey, payRate, extra))
    {
      if GetAccount(records, id).None? {
        return Some(UnknownAccount);
      }
      assert RecordOk(records, AccountKey(id));
      var acc := GetAccount(records, id).value;
      var keyFree := activeKey.Some? && !Indexed(records, extra, activeKey.value);
      var updated := ctx.UpdatedAccount(acc, activeKey, payRate, keyFree);
      if updated.Err? {
        return Some(updated.error);
      }
      if !acc.IsDelegate() && payRate <= 100 {
        RequireFee(BASE_ASSET, DelegateFee(records, payRate));
      }
      ctx.UpdateKeepsDelegate(acc, activeKey, payRate, keyFree);
      UpdatedKeysAvailable(records, ctx, acc, activeKey, payRate, extra);
      StoreAccountData(updated.value);
      error := None;
    }

    /** Moves pay of a delegate into the running total; the delegate's own votes go with it. */
    method WithdrawPay(amount: int, account: AccountId) returns (error: Outcome)
      requires Valid()
      modifies this`records, this`feesPaid, this`voteDeltas
      ensures error.None? <==> MayWithdrawPay(ctx, old(records), amount, account)
      ensures error.None? ==> Valid() && Is(AfterPay(old(State()), amount, account))
    {
      if amount <= 0 {
        return Some(NegativeWithdraw);
      }
      var id := AbsId(account);
      if GetAccount(records, id).None? {
        return Some(UnknownAccount);
      }
      assert RecordOk(records, AccountKey(id));
      var acc := GetAccount(records, id).value;
      if !acc.IsDelegate() {
        return Some(NotADelegate);
      }
      if acc.delegate.value.payBalance < amount {
        return Some(InsufficientFunds);
      }
      if !ctx.AccountOrParentSigned(acc) {
        return Some(MissingSignature);
      }
      acc := acc.(delegate := Some(acc.delegate.value.(payBalance := acc.delegate.value.payBalance - amount)));
      voteDeltas := Add(voteDeltas, id, -amount);
      AddBalance(BASE_ASSET, amount);
      OwnKeysAvailable(records, acc);
      StoreAccount(acc, old(feesPaid), old(voteDeltas), -amount);
      error := None;
    }

    method UpdateSigningKey(id: AccountId, key: Address, extra: set<Address>) returns (error: Outcome)
      requires Valid()
      modifies this`records
      ensures error.None? <==> MaySetSigningKey(ctx, old(records), id, key, extra)
      ensures error.None? ==> Valid() && Is(AfterSigningKey(ctx, old(State()), id, key))
    {
      if GetAccount(records, id).None? {
        return Some(UnknownAccount);
      }
      assert RecordOk(records, AccountKey(id));
      var acc := GetAccount(records, id).value;
      if acc.IsRetracted() {
        return Some(AccountRetracted);
      }
      if !acc.IsDelegate() {
        return Some(NotADelegate);
      }
      if Indexed(records, extra, key) {
        return Some(NameOrKeyRefused);
      }
      if !ctx.Signed(acc.SigningKey()) && !ctx.AccountOrParentSigned(acc) {
        return Some(MissingSignature);
      }
      SigningKeyAvailable(records, ctx, acc, key, extra);
      StoreAccountData(ctx.WithSigningKey(acc, key));
      error := None;
    }

    /* ---------------------------------------------------------------- assets */

    /** Registers an asset; whether the symbol is well formed and its parent and issuer agree is decided outside.
        Its initial supply joins the running total and its collateral is paid from it. */
    method CreateAsset(asset: Asset, accepted: bool) returns (error: Outcome)
      requires Valid()
      modifies this`records, this`lastAssetId, this`feesPaid, this`minFees
      ensures error.None? <==> MayCreateAsset(old(State()), asset, accepted)
      ensures error.None? ==> Valid() && Is(AfterCreateAsset(ctx, old(State()), asset))
    {
      if !accepted || asset.name == "" || SymbolTaken(records, asset.symbol) {
        return Some(AssetRefused);
      }
      var id := lastAssetId + 1;
      assert AssetKey(id) in records ==> RecordOk(records, AssetKey(id));
      if GetAsset(records, id).Some? {
        return Some(AssetRefused);
      }
      if asset.issuer.User? && GetAccount(records, asset.issuer.account).None? {
        return Some(UnknownAccount);
      }
      if asset.maxSupply <= 0 || asset.maxSupply > MAX_SHARES || !IsPowerOfTen(asset.precision) {
        return Some(InvalidAmount);
      }
      AddAsset(asset);
      error := None;
    }

    /** The effect of a registration that has passed its checks. */
    method AddAsset(asset: Asset)
      requires Valid() && AssetKey(lastAssetId + 1) !in records
      modifies this`records, this`lastAssetId, this`feesPaid, this`minFees
      ensures Valid() && Is(AfterCreateAsset(ctx, old(State()), asset))
    {
      RequireFee(BASE_ASSET, AssetFee(|asset.symbol|));
      StoreNewAsset(ctx.NewAsset(records, asset, lastAssetId + 1));
      lastAssetId := lastAssetId + 1;
      AddBalance(lastAssetId, asset.currentSupply);
      SubBalance(BASE_ASSET, asset.currentCollateral);
    }

    method StoreNewAsset(asset: Asset)
      requires Sound(records, feesPaid, voteDeltas) && AssetKey(asset.id) !in records && asset.collectedFees == 0
      modifies this`records
      ensures records == old(records)[AssetKey(asset.id) := AssetRecord(asset)]
      ensures Sound(records, Add(Add(feesPaid, asset.id, asset.currentSupply), BASE_ASSET, -asset.currentCollateral), voteDeltas)
    {
      PutAsset(records, feesPaid, voteDeltas, asset.(currentSupply := 0, currentCollateral := 0), asset);
      records := records[AssetKey(asset.id) := AssetRecord(asset)];
    }

    /** Issues new shares, or with a negated asset id takes collected fees; both join the running total. */
    method IssueAsset(amount: int, asset: AssetId) returns (error: Outcome)
      requires Valid()
      modifies this`records, this`feesPaid
      ensures error.None? <==> MayIssue(ctx, old(records), amount, asset)
      ensures error.None? ==> Valid() && Is(AfterIssue(old(State()), amount, asset))
    {
      if GetAsset(records, AbsId(asset)).None? {
        return Some(UnknownAsset);
      }
      assert RecordOk(records, AssetKey(AbsId(asset)));
      var a := GetAsset(records, AbsId(asset)).value;
      if !a.issuer.User? {
        return Some(NotUserIssued);
      }
      if !ctx.VerifyAuthority(a.authority) {
        return Some(MissingSignature);
      }
      if amount <= 0 {
        return Some(NegativeIssue);
      }
      if asset > 0 {
        if amount > a.maxSupply - a.currentSupply {
          return Some(OverIssue);
        }
        StoreAsset(a, a.(currentSupply := a.currentSupply + amount), feesPaid);
      } else {
        if amount > a.collectedFees {
          return Some(AmountTooLarge);
        }
        StoreAsset(a, a.(collectedFees := a.collectedFees - amount), feesPaid);
      }
      AddBalance(AbsId(asset), amount);
      error := None;
    }

    /** Writes new descriptive data of a user-issued asset; supply, fees and collateral stay. */
    method UpdateAsset(id: AssetId, change: AssetChange) returns (error: Outcome)
      requires Valid()
      modifies this`records
      ensures error.None? <==> MayChangeAsset(ctx, old(records), id, change)
      ensures error.None? ==> Valid() && Is(AfterChange(ctx, old(State()), id, change))
    {
      if GetAsset(records, id).None? {
        return Some(UnknownAsset);
      }
      assert RecordOk(records, AssetKey(id));
      var a := GetAsset(records, id).value;
      var changed := ctx.ChangedAsset(records, a, change);
      if changed.Err? {
        return Some(changed.error);
      }
      StoreAsset(a, changed.value, feesPaid);
      SameTotals(records, Add(feesPaid, id, 0), feesPaid, voteDeltas);
      error := None;
    }

    /** Sells newly created chips for base collateral. The collateral follows from a floating-point price,
        so it is an input here. */
    method BuyChips(amount: int, asset: AssetId, owner: Address, collateral: int) returns (error: Outcome)
      requires Valid()
      modifies this`records, this`feesPaid
      ensures error.None? <==> MayBuyChips(old(records), amount, asset)
      ensures error.None? ==> Valid() && Is(AfterChips(ctx, old(State()), amount, asset, owner, collateral))
    {
      if amount == 0 {
        return Some(InvalidAmount);
      }
      if amount < 0 {
        return Some(NegativeDeposit);
      }
      if GetAsset(records, asset).None? {
        return Some(AssertionFailed);
      }
      SubBalance(BASE_ASSET, collateral);
      CreditChips(Plain(owner, asset), amount, old(feesPaid));
      IssueChips(asset, amount, collateral, Add(old(feesPaid), asset, -amount));
      SameTotals(records, Add(Add(Add(old(feesPaid), asset, -amount), asset, amount), BASE_ASSET, -collateral), feesPaid, voteDeltas);
      error := None;
    }

    method IssueChips(asset: AssetId, amount: int, collateral: int, ghost total: map<AssetId, int>)
      requires Sound(records, total, voteDeltas) && GetAsset(records, asset).Some?
      modifies this`records
      ensures var a := GetAsset(old(records), asset).value;
              records == old(records)[AssetKey(asset) := AssetRecord(a.(currentCollateral := a.currentCollateral + collateral,
                                                                        currentSupply := a.currentSupply + amount))]
      ensures Sound(records, Add(Add(total, asset, amount), BASE_ASSET, -collateral), voteDeltas)
    {
      var a := GetAsset(records, asset).value;
      assert RecordOk(records, AssetKey(asset));
      var sold := a.(currentCollateral := a.currentCollateral + collateral, currentSupply := a.currentSupply + amount);
      PutAsset(records, total, voteDeltas, a, sold);
      records := records[AssetKey(asset) := AssetRecord(sold)];
    }

    /** Like a credit to an owner, but the deposit date stays. */
    method CreditChips(id: Condition, amount: int, ghost total: map<AssetId, int>)
      requires Sound(records, total, voteDeltas) && amount >= 0 && id.slate == 0
      modifies this`records
      ensures var b := BalanceOr(old(records), id);
              records == old(records)[BalanceKey(id) := BalanceRecord(b.(amount := b.amount + amount, lastUpdate := ctx.now))]
      ensures Sound(records, Add(total, id.asset, -amount), voteDeltas)
    {
      assert BalanceKey(id) in records ==> RecordOk(records, BalanceKey(id));
      var found := GetBalance(records, id);
      var b := if found.Some? then found.value else EmptyBalance(id);
      b := b.(amount := b.amount + amount, lastUpdate := ctx.now);
      PutBalance(records, total, voteDeltas, b, voteDeltas);
      records := records[BalanceKey(id) := BalanceRecord(b)];
    }

    /* ---------------------------------------------------------------- whole transactions */

    /** Evaluates one operation. */
    method EvaluateOperation(op: Operation) returns (error: Outcome)
      requires Valid() && IdsUpTo(records, lastAccountId)
      modifies this
      ensures error.None? <==> Accepts(ctx, old(State()), op)
      ensures error.None? ==> Valid() && Is(Step(ctx, old(State()), op))
    {
      if op.RegisterOp? || op.UpdateOp? || op.PayOp? || op.SigningKeyOp? || op.CreateAssetOp? || op.IssueOp? || op.ChangeAssetOp? || op.ChipsOp? {
        error := EvaluateRegistry(op);
      } else {
        error := EvaluateTransfer(op);
      }
    }

    /** The operations on accounts and assets. */
    method EvaluateRegistry(op: Operation) returns (error: Outcome)
      requires Valid() && IdsUpTo(records, lastAccountId)
      requires op.RegisterOp? || op.UpdateOp? || op.PayOp? || op.SigningKeyOp? || op.CreateAssetOp? || op.IssueOp? || op.ChangeAssetOp? || op.ChipsOp?
      modifies this
      ensures error.None? <==> Accepts(ctx, old(State()), op)
      ensures error.None? ==> Valid() && Is(Step(ctx, old(State()), op))
    {
      match op
      case RegisterOp(name, owner, active, payRate, nameOk, extra) => error := RegisterAccount(name, owner, active, payRate, nameOk, extra);
      case UpdateOp(id, active, payRate, extra) => error := UpdateAccount(id, active, payRate, extra);
      case PayOp(amount, account) => error := WithdrawPay(amount, account);
      case SigningKeyOp(id, key, extra) => error := UpdateSigningKey(id, key, extra);
      case CreateAssetOp(asset, accepted) => error := CreateAsset(asset, accepted);
      case IssueOp(amount, asset) => error := IssueAsset(amount, asset);
      case ChangeAssetOp(id, change) => error := UpdateAsset(id, change);
      case ChipsOp(amount, asset, owner, collateral) => error := BuyChips(amount, asset, owner, collateral);
    }

    /** The operations on balances, messages and packets. */
    method EvaluateTransfer(op: Operation) returns (error: Outcome)
      requires Valid()
      requires || op.DepositOp? || op.WithdrawOp? || op.BurnOp? || op.AdOp? || op.NoteOp? || op.PacketOp? || op.ClaimOp?
               || op.VoteOp? || op.SlateOp? || op.DataOp?
      modifies this
      ensures error.None? <==> Accepts(ctx, old(State()), op)
      ensures error.None? ==> Valid() && Is(Step(ctx, old(State()), op))
    {
      match op
      case DepositOp(amount, condition) => error := Deposit(amount, condition);
      case WithdrawOp(id, amount) => error := Withdraw(id, amount);
      case BurnOp(amount, asset, account, size) => error := Burn(amount, asset, account, size);
      case AdOp(amount, asset, owner, publisher, size, signer) => error := Advertise(amount, asset, owner, publisher, size, signer);
      case NoteOp(amount, asset, owner, size, signer) => error := WriteNote(amount, asset, owner, size, signer);
      case PacketOp(id, amount, asset, sender, claimKey, count, rp, size, seed) =>
        error := CreatePacket(id, amount, asset, sender, claimKey, count, rp, size, seed);
      case ClaimOp(id, to) => error := ClaimPacket(id, to);
      case VoteOp(id, restricted, slate) => error := UpdateBalanceVote(id, restricted, slate);
      case SlateOp(ids) => error := DefineSlate(ids);
      case DataOp => error := None;
    }

    /** Turns what is left of the running total into collected fees. */
    method ValidateFees() returns (error: Outcome)
      requires Sound(records, feesPaid, voteDeltas)
      modifies this`records
      ensures error.None? <==> forall a | a in feesPaid :: FeeOk(old(records), feesPaid, minFees, a)
      ensures error.None? ==> Sound(records, map[], voteDeltas) && records == Collected(old(records), feesPaid)
    {
      var todo := feesPaid.Keys;
      ghost var done: map<AssetId, int> := map[];
      CollectedNone(records);
      while todo != {}
        invariant todo <= feesPaid.Keys && done == feesPaid - todo && records == Collected(old(records), done)
        invariant Sound(records, feesPaid - done.Keys, voteDeltas)
        invariant forall a | a in done :: FeeOk(old(records), feesPaid, minFees, a)
      {
        ghost var witness' := SomeMember(todo);
        var a :| a in todo;
        assert AssetKey(a) in records ==> RecordOk(records, AssetKey(a));
        assert FeeOk(old(records), feesPaid, minFees, a) <==>
               feesPaid[a] >= 0 && feesPaid[a] >= At(minFees, a) && (feesPaid[a] != 0 ==> GetAsset(records, a).Some?);
        if feesPaid[a] < 0 {
          return Some(NegativeFee);
        }
        if feesPaid[a] < At(minFees, a) {
          return Some(InsufficientFee);
        }
        if feesPaid[a] != 0 && GetAsset(records, a).None? {
          return Some(UnknownAsset);
        }
        CollectFee(a, feesPaid[a], feesPaid - done.Keys, old(records), done);
        done := done[a := feesPaid[a]];
        todo := todo - {a};
      }
      assert done == feesPaid;
      error := None;
    }

    method CollectFee(a: AssetId, amount: int, ghost rest: map<AssetId, int>, ghost before: Records, ghost done: map<AssetId, int>)
      requires Sound(records, rest, voteDeltas) && At(rest, a) == amount >= 0 && a !in done
      requires amount != 0 ==> GetAsset(records, a).Some?
      requires records == Collected(before, done)
      modifies this`records
      ensures Sound(records, rest - {a}, voteDeltas) && records == Collected(before, done[a := amount])
    {
      ghost var total := rest;
      CollectedNext(before, done, a, amount);
      if amount != 0 {
        assert RecordOk(records, AssetKey(a));
        var asset := GetAsset(records, a).value;
        StoreAsset(asset, asset.(collectedFees := asset.collectedFees + amount), rest);
        total := Add(rest, a, -amount);
      }
      SameTotals(records, total, rest - {a}, voteDeltas);
    }

    /** Writes the pending corrections into the tallies of the delegates. The assertion of the original, that
        every corrected account is a delegate, always holds. */
    method UpdateDelegateVotes()
      requires Sound(records, map[], voteDeltas)
      modifies this`records, this`voteDeltas
      ensures Sound(records, map[], map[]) && voteDeltas == map[] && records == Counted(old(records), old(voteDeltas))
    {
      while voteDeltas != map[]
        invariant Sound(records, map[], voteDeltas) && Counted(records, voteDeltas) == Counted(old(records), old(voteDeltas))
        decreases |voteDeltas|
      {
        ghost var witness' := SomeMember(voteDeltas.Keys);
        var id :| id in voteDeltas;
        assert IsDelegate(records, id);
        CountedNext(records, voteDeltas, id);
        ApplyVotes(id, voteDeltas[id]);
      }
      CountedNone(records);
    }

    method ApplyVotes(id: AccountId, amount: int)
      requires Sound(records, map[], voteDeltas) && id in voteDeltas && amount == voteDeltas[id] && IsDelegate(records, id)
      modifies this`records, this`voteDeltas
      ensures Sound(records, map[], voteDeltas) && voteDeltas == old(voteDeltas) - {id}
      ensures records == old(records)[AccountKey(id) := AccountRecord(WithVotes(GetAccount(old(records), id).value, amount))]
    {
      assert RecordOk(records, AccountKey(id));
      var acc := WithVotes(GetAccount(records, id).value, amount);
      OwnKeysAvailable(records, acc);
      PutAccount(records, map[], voteDeltas, acc, -amount);
      records := records[AccountKey(id) := AccountRecord(acc)];
      SameTotals(records, Add(map[], BASE_ASSET, 0), map[], if amount == 0 then voteDeltas else Add(voteDeltas, id, -amount));
      SameDeltas(records, map[], if amount == 0 then voteDeltas else Add(voteDeltas, id, -amount), voteDeltas - {id});
      voteDeltas := voteDeltas - {id};
    }

    /** Credits the fees, in base shares, to the reputation of the account that advertised or wrote. */
    method UpdateRp(baseFees: int) returns (error: Outcome)
      requires Sound(records, map[], map[]) && voteDeltas == map[]
      modifies this`records
      ensures error.None? <==> (rpAccount.Some? ==> AccountKey(rpAccount.value) in old(records))
      ensures error.None? ==> Sound(records, map[], map[]) && records == Reputed(old(records), rpAccount, baseFees)
    {
      if rpAccount.None? {
        return None;
      }
      assert AccountKey(rpAccount.value) in records ==> RecordOk(records, AccountKey(rpAccount.value));
      if GetAccount(records, rpAccount.value).None? {
        return Some(AssertionFailed);
      }
      var acc := GetAccount(records, rpAccount.value).value;
      OwnKeysAvailable(records, acc.(rp := acc.rp + baseFees));
      StoreAccount(acc.(rp := acc.rp + baseFees), map[], map[], 0);
      SameTotals(records, Add(map[], BASE_ASSET, 0), map[], map[]);
      error := None;
    }

    /** Evaluates a transaction: it leaves exactly the books that evaluating the operations in order and settling gives.
        When it is accepted the records are again sound on their own: every asset's supply is accounted for and every
        delegate's tally is exact. The worth of the fees in base shares depends on price feeds, so it is an input. */
    method Evaluate(ops: seq<Operation>, baseFees: int) returns (error: Outcome)
      requires Valid() && IdsUpTo(records, lastAccountId)
      requires feesPaid == map[] && minFees == map[] && voteDeltas == map[] && rpAccount.None?
      modifies this
      ensures var after := Evaluated(ctx, Books(old(records), old(lastAccountId), old(lastAssetId)), ops, baseFees);
              && (error.None? <==> after.Some?)
              && (error.None? ==> Books(records, lastAccountId, lastAssetId) == after.value)
      ensures error.None? ==> Sound(records, map[], map[]) && IdsUpTo(records, lastAccountId)
    {
      error := EvaluateAll(ops);
      if error.Some? {
        return;
      }
      error := Settle(baseFees);
    }

    /** Evaluates the operations in order; the first one refused stops it. */
    method EvaluateAll(ops: seq<Operation>) returns (error: Outcome)
      requires Valid() && IdsUpTo(records, lastAccountId)
      modifies this
      ensures error.None? <==> Run(ctx, old(State()), ops).Some?
      ensures error.None? ==> Valid() && IdsUpTo(records, lastAccountId) && State() == Run(ctx, old(State()), ops).value
    {
      error := None;
      for i := 0 to |ops|
        invariant error.None? && Valid() && IdsUpTo(records, lastAccountId) && Run(ctx, old(State()), ops[..i]) == Some(State())
      {
        assert ops[..i + 1][..i] == ops[..i];
        ghost var s := State();
        error := EvaluateOperation(ops[i]);
        if error.Some? {
          RunStops(ctx, old(State()), ops, i + 1);
          return;
        }
        StepIds(ctx, s, ops[i]);
      }
      assert ops[..|ops|] == ops;
    }

    /** The end of a transaction. */
    method Settle(baseFees: int) returns (error: Outcome)
      requires Valid() && IdsUpTo(records, lastAccountId)
      modifies this`records, this`voteDeltas
      ensures error.None? <==> CanSettle(old(State()))
      ensures error.None? ==> Sound(records, map[], map[]) && IdsUpTo(records, lastAccountId) && records == Settled(old(State()), baseFees)
    {
      error := ValidateFees();
      if error.Some? {
        return;
      }
      assert forall a :: AssetKey(a) in records ==> RecordOk(records, AssetKey(a));
      if exists a | a in feesPaid && a != BASE_ASSET :: GetAsset(records, a).None? {
        return Some(AssertionFailed);
      }
      UpdateDelegateVotes();
      error := UpdateRp(baseFees);
    }
  }
}
