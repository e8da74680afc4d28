/** What the operations do, in amounts: the meaning of the states that evaluating them leaves. */
module Effects {
  import opened Prelude
  import opened Records
  import opened Ledger
  import opened Packets
  import opened Vesting
  import opened Operations

  /** A record is of the kind of its key and carries the same id. */
  predicate KeyedAt(r: Records, k: Key)
    requires k in r
  {
    match k
    case BalanceKey(c) => r[k].BalanceRecord? && r[k].balance.condition == c
    case AccountKey(id) => r[k].AccountRecord? && r[k].account.id == id
    case AssetKey(id) => r[k].AssetRecord? && r[k].asset.id == id
    case SlateKey(_) => r[k].SlateRecord?
    case PacketKey(id) => r[k].PacketRecord? && r[k].packet.id == id
    case ReferenceKey => r[k].ReferenceRecord?
    case RewardKey => r[k].RewardRecord?
    case _ => r[k].MessageRecord?
  }

  ghost predicate Keyed(r: Records) {
    forall k {:trigger KeyedAt(r, k)} | k in r :: KeyedAt(r, k)
  }

  lemma SoundIsKeyed(r: Records)
    requires RecordsOk(r)
    ensures Keyed(r)
  {
    forall k | k in r ensures KeyedAt(r, k) {
      assert RecordOk(r, k);
    }
  }

  /** Nothing was written but under the given keys. */
  ghost predicate Touched(before: Records, after: Records, ks: set<Key>) {
    forall k {:trigger k in before} {:trigger k in after} | k !in ks ::
      (k in after <==> k in before) && (k in before ==> after[k] == before[k])
  }

  /** The balance gains what the running total loses; its date is the mean by amount. */
  ghost predicate Deposits(ctx: Context, s: Working, amount: int, c: Condition, s': Working) {
    && s' == s.(records := s'.records, deltas := s'.deltas, fees := Add(s.fees, c.asset, -amount))
    && Touched(s.records, s'.records, {BalanceKey(c)}) && GetBalance(s'.records, c).Some?
    && AmountOf(s'.records, c) == AmountOf(s.records, c) + amount
    && (AmountOf(s.records, c) == 0 ==> GetBalance(s'.records, c).value.depositDate == ctx.now)
    && (AmountOf(s.records, c) > 0 && amount > 0 ==>
          IsMeanDate(GetBalance(s'.records, c).value.depositDate, GetBalance(s.records, c).value.depositDate,
                     AmountOf(s.records, c), ctx.now, amount))
  }

  lemma DepositDoes(ctx: Context, s: Working, amount: int, c: Condition)
    requires Keyed(s.records) && MayDeposit(s.records, amount, c)
    ensures Deposits(ctx, s, amount, c, AfterDeposit(ctx, s, amount, c))
  {
    assert BalanceKey(c) in s.records ==> KeyedAt(s.records, BalanceKey(c));
    if AmountOf(s.records, c) > 0 && amount > 0 {
      MeanIs(GetBalance(s.records, c).value.depositDate, AmountOf(s.records, c), ctx.now, amount);
    }
  }

  /** The balance loses what the running total gains, and gains the yield that the collected fees lose. */
  ghost predicate Withdraws(ctx: Context, s: Working, id: Condition, amount: int, s': Working) {
    && GetBalance(s.records, id).Some? && GetAsset(s.records, id.asset).Some?
    && var asset, y := GetAsset(s.records, id.asset).value, YieldDue(ctx, s.records, id);
    && s' == s.(records := s'.records, deltas := s'.deltas, minFees := s'.minFees, fees := Add(s.fees, id.asset, amount))
    && (forall a :: At(s'.minFees, a) ==
          if a == id.asset && asset.withdrawalFee != 0 && !ctx.VerifyAuthority(asset.authority)
          then Max(At(s.minFees, a), asset.withdrawalFee) else At(s.minFees, a))
    && Touched(s.records, s'.records, {BalanceKey(id), AssetKey(id.asset)})
    && AmountOf(s'.records, id) == AmountOf(s.records, id) - amount + y
    && GetAsset(s'.records, id.asset) == Some(asset.(collectedFees := asset.collectedFees - y))
  }

  lemma WithdrawDoes(ctx: Context, s: Working, id: Condition, amount: int)
    requires Keyed(s.records) && MayWithdrawFrom(ctx, s.records, id, amount)
    ensures Withdraws(ctx, s, id, amount, AfterWithdraw(ctx, s, id, amount))
  {
    assert KeyedAt(s.records, AssetKey(id.asset));
    WithdrawalMoves(ctx, s, id, amount);
  }

  lemma WithdrawalMoves(ctx: Context, s: Working, id: Condition, amount: int)
    requires GetBalance(s.records, id).Some? && GetAsset(s.records, id.asset).Some? && GetAsset(s.records, id.asset).value.id == id.asset
    ensures Withdraws(ctx, s, id, amount, AfterWithdraw(ctx, s, id, amount))
  {
    var b, asset, y := GetBalance(s.records, id).value, GetAsset(s.records, id.asset).value, YieldDue(ctx, s.records, id);
    YieldIsCovered(ctx.now - b.depositDate, b.amount, asset.collectedFees, asset.currentSupply);
    YieldTouches(s.records, asset, y);
  }

  lemma YieldTouches(r: Records, asset: Asset, y: int)
    requires GetAsset(r, asset.id) == Some(asset) && y >= 0
    ensures Touched(r, AfterYield(r, asset, y), {AssetKey(asset.id)})
    ensures GetAsset(AfterYield(r, asset, y), asset.id) == Some(asset.(collectedFees := asset.collectedFees - y))
  {
  }

  /** All but the fee moves under the new slate of the same owner. */
  ghost predicate MovesVote(ctx: Context, s: Working, id: Condition, restrictedOwner: Option<Address>, slate: SlateId, s': Working) {
    && id.lock.Signature? && GetBalance(s.records, id).Some?
    && var target, held := Condition(BASE_ASSET, slate, Signature(id.lock.owner, 0)), AmountOf(s.records, id);
    && s' == s.(records := s'.records, deltas := s'.deltas, fees := Add(s.fees, BASE_ASSET, VOTE_UPDATE_FEE))
    && Touched(s.records, s'.records, {BalanceKey(id), BalanceKey(target)})
    && (target != id ==> AmountOf(s'.records, id) == 0)
    && AmountOf(s'.records, target) == (if target == id then 0 else AmountOf(s.records, target)) + held - VOTE_UPDATE_FEE
    && GetBalance(s'.records, target).Some?
    && GetBalance(s'.records, target).value.restrictedOwner ==
       if restrictedOwner.Some? then restrictedOwner else GetBalance(s.records, id).value.restrictedOwner
  }

  lemma VoteDoes(ctx: Context, s: Working, id: Condition, restrictedOwner: Option<Address>, slate: SlateId)
    requires Keyed(s.records) && MayVote(ctx, s.records, id, restrictedOwner, slate)
    ensures MovesVote(ctx, s, id, restrictedOwner, slate, AfterVote(ctx, s, id, restrictedOwner, slate))
  {
    assert KeyedAt(s.records, BalanceKey(id));
    assert BalanceKey(VoteTarget(id, slate)) in s.records ==> KeyedAt(s.records, BalanceKey(VoteTarget(id, slate)));
  }

  ghost predicate DefinesSlate(ctx: Context, s: Working, ids: seq<AccountId>, s': Working) {
    var slate := set d | d in ids;
    && s' == s.(records := s'.records) && Touched(s.records, s'.records, {SlateKey(ctx.slateId(slate))})
    && GetSlate(s'.records, ctx.slateId(slate)) == Some(slate)
  }

  lemma SlateDoes(ctx: Context, s: Working, ids: seq<AccountId>)
    requires Keyed(s.records) && MayDefineSlate(ctx, s.records, ids)
    ensures DefinesSlate(ctx, s, ids, AfterSlate(ctx, s, ids))
  {
  }

  /** The supply falls by what the running total loses. */
  ghost predicate Burns(ctx: Context, s: Working, amount: int, asset: AssetId, account: AccountId, s': Working) {
    && GetAsset(s.records, asset).Some? && var a := GetAsset(s.records, asset).value;
    && s' == s.(records := s'.records, fees := Add(s.fees, asset, -amount))
    && Touched(s.records, s'.records, {AssetKey(asset), BurnKey(account, ctx.trx)})
    && GetAsset(s'.records, asset) == Some(a.(currentSupply := a.currentSupply - amount))
    && BurnKey(account, ctx.trx) in s'.records && s'.records[BurnKey(account, ctx.trx)] == MessageRecord(amount)
  }

  lemma BurnDoes(ctx: Context, s: Working, amount: int, asset: AssetId, account: AccountId, size: nat)
    requires Keyed(s.records) && MayBurn(ctx, s.records, amount, asset, account, size)
    ensures Burns(ctx, s, amount, asset, account, AfterBurn(ctx, s, amount, asset, account))
  {
  }

  /** The owner of the space gets what exceeds the price of the message. */
  ghost predicate Advertises(ctx: Context, s: Working, amount: int, owner: AccountId, publisher: AccountId, size: nat, s': Working) {
    && GetAccount(s.records, AbsId(owner)).Some?
    && var space := Plain(GetAccount(s.records, AbsId(owner)).value.ActiveKey(), BASE_ASSET);
    && s' == s.(records := s'.records, fees := Add(s.fees, BASE_ASSET, AdPrice(size) - amount),
                minFees := Add(s.minFees, BASE_ASSET, AdPrice(size)), rpAccount := Some(AbsId(publisher)))
    && Touched(s.records, s'.records, {BalanceKey(space), AdKey(owner, ctx.trx)})
    && AmountOf(s'.records, space) == AmountOf(s.records, space) + amount - AdPrice(size)
    && AdKey(owner, ctx.trx) in s'.records && s'.records[AdKey(owner, ctx.trx)] == MessageRecord(amount)
  }

  lemma AdDoes(ctx: Context, s: Working, amount: int, asset: AssetId, owner: AccountId, publisher: AccountId, size: nat, signer: Address)
    requires Keyed(s.records) && MayAdvertise(ctx, s.records, amount, asset, owner, publisher, size, signer)
    ensures Advertises(ctx, s, amount, owner, publisher, size, AfterAd(ctx, s, amount, owner, publisher, size))
  {
  }

  /** Three tenths of the price, rounded down, are due as a fee, and the rest goes into the pool. */
  ghost predicate WritesNote(ctx: Context, s: Working, amount: int, owner: AccountId, s': Working) {
    var fee := amount * 3 / 10;
    && s' == s.(records := s'.records, fees := Add(s.fees, BASE_ASSET, fee - amount),
                minFees := Add(s.minFees, BASE_ASSET, fee), rpAccount := Some(AbsId(owner)))
    && Touched(s.records, s'.records, {RewardKey, NoteKey(owner, ctx.trx)})
    && Pool(s'.records) == Add(Pool(s.records), BASE_ASSET, amount - fee)
    && NoteKey(owner, ctx.trx) in s'.records && s'.records[NoteKey(owner, ctx.trx)] == MessageRecord(amount)
  }

  lemma NoteDoes(ctx: Context, s: Working, amount: int, asset: AssetId, owner: AccountId, size: nat, signer: Address)
    requires Keyed(s.records) && MayWriteNote(ctx, s.records, amount, asset, owner, size, signer)
    ensures WritesNote(ctx, s, amount, owner, AfterNote(ctx, s, amount, owner))
  {
  }

  /** The packet holds what the running total loses, in unclaimed shares. */
  ghost predicate SendsPacket(s: Working, id: PacketId, amount: int, sender: AccountId, claimKey: Address, count: nat, requiredRp: Option<int>,
                              seed: nat, s': Working) {
    && GetPacket(s'.records, id).Some? && var p := GetPacket(s'.records, id).value;
    && s' == s.(records := s'.records, fees := Add(s.fees, BASE_ASSET, -LeftAmount(p.shares)),
                minFees := Add(s.minFees, BASE_ASSET, PACKET_FEE), rpAccount := Some(AbsId(sender)))
    && Touched(s.records, s'.records, {PacketKey(id)})
    && p == Packet(id, BASE_ASSET, amount, sender, claimKey, requiredRp, p.shares)
    && Some(p.shares) == SplitOf(amount, count, seed) && |p.shares| == count && Orderly(p.shares)
    && (forall i | 0 <= i < count :: p.shares[i].claimant == UNCLAIMED)
    && 0 <= LeftAmount(p.shares) <= amount && (LeftAmount(p.shares) > 0 <==> (amount / PACKET_UNIT) % TWO32 > 0)
  }

  lemma PacketDoes(ctx: Context, s: Working, id: PacketId, amount: int, asset: AssetId, sender: AccountId, claimKey: Address, count: nat,
                   requiredRp: Option<int>, size: nat, seed: nat)
    requires MaySendPacket(ctx, s.records, id, amount, asset, sender, count, size)
    ensures SendsPacket(s, id, amount, sender, claimKey, count, requiredRp, seed,
                        AfterPacket(s, id, amount, sender, claimKey, count, requiredRp, seed))
  {
    SharesDo(amount, count, seed);
  }

  lemma SharesDo(amount: int, count: nat, seed: nat)
    requires 0 < count <= MAX_SHARES_PER_PACKET && amount >= 0 && ((amount / PACKET_UNIT) % TWO32 >= count || count == 1)
    ensures SplitOf(amount, count, seed).Some?
    ensures var shares := SplitOf(amount, count, seed).value;
            && |shares| == count && Orderly(shares) && (forall i | 0 <= i < count :: shares[i].claimant == UNCLAIMED)
            && 0 <= LeftAmount(shares) <= amount && (LeftAmount(shares) > 0 <==> (amount / PACKET_UNIT) % TWO32 > 0)
  {
    SplitIs(amount, count, seed);
    var shares, c := SplitOf(amount, count, seed).value, Coarse((amount / PACKET_UNIT) % TWO32, PACKET_UNIT, count);
    SplitIsOrderly(shares, count, c.1, c.0 * c.1);
    assert forall i | 0 <= i < count :: shares[i] in shares;
  }

  /** The account gets the first share that is not claimed. It leaves the packet under the claimant's name, so for the
      unclaimed marker it stays. */
  ghost predicate ClaimsShare(ctx: Context, s: Working, id: PacketId, to: AccountId, s': Working) {
    && GetPacket(s.records, id).Some? && GetAccount(s.records, AbsId(to)).Some? && ctx.ClaimPays(s.records, id, to).Some?
    && var paid, packet := ctx.ClaimPays(s.records, id, to).value, GetPacket(s.records, id).value;
    && var target := Plain(GetAccount(s.records, AbsId(to)).value.ActiveKey(), packet.asset);
    && s' == s.(records := s'.records, fees := s'.fees)
    && s'.fees.Keys <= s.fees.Keys + {packet.asset} && (forall a :: At(s'.fees, a) == At(s.fees, a))
    && Touched(s.records, s'.records, {BalanceKey(target), PacketKey(id), ReferenceKey})
    && AmountOf(s'.records, target) == AmountOf(s.records, target) + paid
    && LeftOf(s'.records, id) == LeftOf(s.records, id) - (if to == UNCLAIMED then 0 else paid)
    && ReferenceOf(s'.records) ==
       (if to == UNCLAIMED && paid > 0 then Twice(ReferenceOf(s.records), packet.asset, paid) else ReferenceOf(s.records))
  }

  lemma ShareDoes(r: Records, target: Condition, packet: Packet, to: AccountId, paid: int, now: Time)
    ensures var r' := AfterShare(r, target, packet, to, paid, now);
            && Touched(r, r', {BalanceKey(target), PacketKey(packet.id), ReferenceKey})
            && AmountOf(r', target) == AmountOf(r, target) + paid && LeftOf(r', packet.id) == LeftAmount(packet.shares)
            && ReferenceOf(r') == if to == UNCLAIMED && paid > 0 then Twice(ReferenceOf(r), packet.asset, paid) else ReferenceOf(r)
  {
  }

  lemma ClaimDoes(ctx: Context, s: Working, id: PacketId, to: AccountId)
    requires Keyed(s.records) && ctx.ClaimPays(s.records, id, to).Some?
    ensures ClaimsShare(ctx, s, id, to, AfterClaim(ctx, s, id, to))
  {
    assert KeyedAt(s.records, PacketKey(id));
    ClaimMoves(ctx, s, id, to);
  }

  lemma ClaimMoves(ctx: Context, s: Working, id: PacketId, to: AccountId)
    requires ctx.ClaimPays(s.records, id, to).Some? && GetPacket(s.records, id).value.id == id
    ensures ClaimsShare(ctx, s, id, to, AfterClaim(ctx, s, id, to))
  {
    var acc, packet := GetAccount(s.records, AbsId(to)).value, GetPacket(s.records, id).value;
    var claim := ClaimOf(packet.shares, to);
    if claim.Paid? {
      FirstUnclaimedIsFree(packet.shares);
      var share := packet.shares[claim.index];
      LeftUpdate(packet.shares, claim.index, share.(claimant := to));
      ShareDoes(s.records, Plain(acc.ActiveKey(), packet.asset), packet.(shares := claim.shares), to, share.amount, ctx.now);
    }
  }

  /** A new account under the next id, a delegate when the pay rate is at most 100. */
  ghost predicate Registers(ctx: Context, s: Working, name: string, ownerKey: Address, activeKey: Address, payRate: nat, s': Working) {
    var id := s.lastAccountId + 1;
    && s' == s.(records := s'.records, lastAccountId := id,
                minFees := Add(s.minFees, BASE_ASSET, AccountFee(|name|) + (if payRate <= 100 then DelegateFee(s.records, payRate) else 0)))
    && AccountKey(id) !in s.records && Touched(s.records, s'.records, {AccountKey(id)})
    && GetAccount(s'.records, id) ==
       Some(Account(id, name, ownerKey, [(ctx.now, activeKey)], ctx.now, 0,
                    if payRate <= 100 then Some(Delegate(0, payRate, [(ctx.headNum, activeKey)], 0, 0, 0, 0, 0)) else None))
  }

  lemma RegisterDoes(ctx: Context, s: Working, name: string, ownerKey: Address, activeKey: Address, payRate: nat)
    requires Keyed(s.records) && IdsUpTo(s.records, s.lastAccountId)
    ensures Registers(ctx, s, name, ownerKey, activeKey, payRate, AfterRegister(ctx, s, name, ownerKey, activeKey, payRate))
  {
  }

  ghost predicate Updates(ctx: Context, s: Working, id: AccountId, newKey: Option<Address>, payRate: nat, s': Working) {
    && GetAccount(s.records, id).Some? && GetAccount(s'.records, id).Some?
    && var acc, acc' := GetAccount(s.records, id).value, GetAccount(s'.records, id).value;
    && s' == s.(records := s'.records, minFees := s'.minFees) && Touched(s.records, s'.records, {AccountKey(id)})
    && s'.minFees == (if !acc.IsDelegate() && payRate <= 100 then Add(s.minFees, BASE_ASSET, DelegateFee(s.records, payRate)) else s.minFees)
    && acc' == acc.(activeKeys := acc'.activeKeys, delegate := acc'.delegate, lastUpdate := ctx.now)
    && acc'.activeKeys == (if ChangesKey(acc, newKey) then SetKey(acc.activeKeys, ctx.now, newKey.value) else acc.activeKeys)
    && acc'.delegate ==
       if acc.IsDelegate() then Some(acc.delegate.value.(payRate := payRate))
       else if payRate <= 100 then Some(Delegate(0, payRate, [(ctx.headNum, acc'.ActiveKey())], 0, 0, 0, 0, 0)) else None
  }

  lemma UpdateDoes(ctx: Context, s: Working, id: AccountId, newKey: Option<Address>, payRate: nat, extra: set<Address>)
    requires Keyed(s.records) && MayUpdate(ctx, s.records, id, newKey, payRate, extra)
    ensures Updates(ctx, s, id, newKey, payRate, AfterUpdate(ctx, s, id, newKey, payRate, extra))
  {
  }

  /** The pay loses what the running total gains, and the delegate as many votes. */
  ghost predicate WithdrawsPay(s: Working, amount: int, account: AccountId, s': Working) {
    && var id := AbsId(account);
    && IsDelegate(s.records, id) && var acc := GetAccount(s.records, id).value;
    && s' == s.(records := s'.records, fees := Add(s.fees, BASE_ASSET, amount), deltas := Add(s.deltas, id, -amount))
    && Touched(s.records, s'.records, {AccountKey(id)})
    && GetAccount(s'.records, id) ==
       Some(acc.(delegate := Some(acc.delegate.value.(payBalance := acc.delegate.value.payBalance - amount))))
  }

  lemma PayDoes(ctx: Context, s: Working, amount: int, account: AccountId)
    requires Keyed(s.records) && MayWithdrawPay(ctx, s.records, amount, account)
    ensures WithdrawsPay(s, amount, account, AfterPay(s, amount, account))
  {
  }

  ghost predicate SetsSigningKey(ctx: Context, s: Working, id: AccountId, key: Address, s': Working) {
    && IsDelegate(s.records, id) && var acc := GetAccount(s.records, id).value;
    && s' == s.(records := s'.records) && Touched(s.records, s'.records, {AccountKey(id)})
    && GetAccount(s'.records, id) ==
       Some(acc.(lastUpdate := ctx.now,
                 delegate := Some(acc.delegate.value.(signingKeys := SetKey(acc.delegate.value.signingKeys, ctx.headNum, key)))))
  }

  lemma SigningKeyDoes(ctx: Context, s: Working, id: AccountId, key: Address, extra: set<Address>)
    requires Keyed(s.records) && MaySetSigningKey(ctx, s.records, id, key, extra)
    ensures SetsSigningKey(ctx, s, id, key, AfterSigningKey(ctx, s, id, key))
  {
  }

  /** A new asset under the next id, whose authority is its issuer's active key and whose permissions are all flags. */
  ghost predicate CreatesAsset(s: Working, asset: Asset, s': Working) {
    var id := s.lastAssetId + 1;
    && s' == s.(records := s'.records, lastAssetId := id, minFees := Add(s.minFees, BASE_ASSET, AssetFee(|asset.symbol|)),
                fees := Add(Add(s.fees, id, asset.currentSupply), BASE_ASSET, -asset.currentCollateral))
    && AssetKey(id) !in s.records && Touched(s.records, s'.records, {AssetKey(id)}) && GetAsset(s'.records, id).Some?
    && var a := GetAsset(s'.records, id).value;
    && a == Asset(id, asset.symbol, asset.issuer, a.authority, ALL_FLAGS, {}, {}, asset.name, asset.precision, asset.maxSupply, 0, 0,
                  0, asset.currentSupply, asset.currentCollateral)
    && a.authority.required == 1
    && a.authority.owners ==
       if asset.issuer.User? && GetAccount(s.records, asset.issuer.account).Some?
       then {GetAccount(s.records, asset.issuer.account).value.ActiveKey()} else {}
  }

  lemma CreateAssetDoes(ctx: Context, s: Working, asset: Asset, accepted: bool)
    requires Keyed(s.records) && MayCreateAsset(s, asset, accepted)
    ensures CreatesAsset(s, asset, AfterCreateAsset(ctx, s, asset))
  {
  }

  /** The running total gains new shares, or for a negated id collected fees. */
  ghost predicate Issues(s: Working, amount: int, asset: AssetId, s': Working) {
    && GetAsset(s.records, AbsId(asset)).Some? && var a := GetAsset(s.records, AbsId(asset)).value;
    && s' == s.(records := s'.records, fees := Add(s.fees, AbsId(asset), amount))
    && Touched(s.records, s'.records, {AssetKey(AbsId(asset))})
    && GetAsset(s'.records, AbsId(asset)) ==
       Some(if asset > 0 then a.(currentSupply := a.currentSupply + amount) else a.(collectedFees := a.collectedFees - amount))
  }

  lemma IssueDoes(ctx: Context, s: Working, amount: int, asset: AssetId)
    requires Keyed(s.records) && MayIssue(ctx, s.records, amount, asset)
    ensures Issues(s, amount, asset, AfterIssue(s, amount, asset))
  {
  }

  predicate IsNow<T(==)>(change: Option<T>, before: T, after: T) {
    after == if change.Some? then change.value else before
  }

  /** Of a user-issued asset only the parts that the change is about are replaced, and only those it gives. The authority
      of the asset has signed, unless the change is to the whitelist; with shares outstanding no permission is regained, the
      precision stays, and the largest supply and the fees move only under an active flag. */
  ghost predicate ChangedTo(ctx: Context, a: Asset, change: AssetChange, b: Asset) {
    && a.issuer.User?
    && match change
       case Whitelisted(owner, add) =>
         && b == a.(whitelist := b.whitelist) && (add ==> a.IsActive(RestrictedDeposits))
         && forall x :: x in b.whitelist <==> if x == owner then add else x in a.whitelist
       case Permissions(authority, permissions, active) =>
         && ctx.VerifyAuthority(a.authority) && b == a.(authority := b.authority, permissions := b.permissions, activeFlags := b.activeFlags)
         && IsNow(authority, a.authority, b.authority) && IsNow(permissions, a.permissions, b.permissions)
         && IsNow(active, a.activeFlags, b.activeFlags)
         && (a.currentSupply != 0 ==> b.permissions <= a.permissions) && (active.Some? ==> b.activeFlags <= b.permissions)
       case Properties(issuer, name, precision, maxSupply, withdrawalFee, marketFeeRate) =>
         && ctx.VerifyAuthority(a.authority)
         && b == a.(issuer := b.issuer, name := b.name, precision := b.precision, maxSupply := b.maxSupply, withdrawalFee := b.withdrawalFee,
                    marketFeeRate := b.marketFeeRate)
         && b.issuer.User? && (if issuer.Some? then b.issuer.account == issuer.value else b.issuer == a.issuer)
         && IsNow(name, a.name, b.name) && IsNow(precision, a.precision, b.precision) && IsNow(maxSupply, a.maxSupply, b.maxSupply)
         && IsNow(withdrawalFee, a.withdrawalFee, b.withdrawalFee) && IsNow(marketFeeRate, a.marketFeeRate, b.marketFeeRate)
         && (maxSupply.Some? ==> a.currentSupply <= b.maxSupply <= MAX_SHARES)
         && (a.currentSupply != 0 ==> precision.None? && (maxSupply.Some? ==> a.IsActive(DynamicMaxSupply)) &&
                                      (withdrawalFee.Some? || marketFeeRate.Some? ==> a.IsActive(DynamicFees)))
  }

  ghost predicate ChangesAsset(ctx: Context, s: Working, id: AssetId, change: AssetChange, s': Working) {
    && GetAsset(s.records, id).Some? && GetAsset(s'.records, id).Some?
    && s' == s.(records := s'.records) && Touched(s.records, s'.records, {AssetKey(id)})
    && ChangedTo(ctx, GetAsset(s.records, id).value, change, GetAsset(s'.records, id).value)
  }

  lemma ChangeDoes(ctx: Context, s: Working, id: AssetId, change: AssetChange)
    requires Keyed(s.records) && MayChangeAsset(ctx, s.records, id, change)
    ensures ChangesAsset(ctx, s, id, change, AfterChange(ctx, s, id, change))
  {
  }

  /** The owner gets new chips, and the running total pays the collateral. */
  ghost predicate BuysChips(s: Working, amount: int, asset: AssetId, owner: Address, collateral: int, s': Working) {
    && GetAsset(s.records, asset).Some? && var a := GetAsset(s.records, asset).value;
    && s' == s.(records := s'.records, fees := Add(s.fees, BASE_ASSET, -collateral))
    && Touched(s.records, s'.records, {BalanceKey(Plain(owner, asset)), AssetKey(asset)})
    && AmountOf(s'.records, Plain(owner, asset)) == AmountOf(s.records, Plain(owner, asset)) + amount
    && GetAsset(s'.records, asset) ==
       Some(a.(currentCollateral := a.currentCollateral + collateral, currentSupply := a.currentSupply + amount))
  }

  lemma ChipsDo(ctx: Context, s: Working, amount: int, asset: AssetId, owner: Address, collateral: int)
    requires Keyed(s.records) && MayBuyChips(s.records, amount, asset)
    ensures BuysChips(s, amount, asset, owner, collateral, AfterChips(ctx, s, amount, asset, owner, collateral))
  {
    assert BalanceKey(Plain(owner, asset)) in s.records ==> KeyedAt(s.records, BalanceKey(Plain(owner, asset)));
  }

  /** What an accepted operation does. */
  ghost predicate Does(ctx: Context, s: Working, op: Operation, s': Working) {
    match op
    case DepositOp(amount, c) => Deposits(ctx, s, amount, c, s')
    case WithdrawOp(id, amount) => Withdraws(ctx, s, id, amount, s')
    case BurnOp(amount, asset, account, _) => Burns(ctx, s, amount, asset, account, s')
    case AdOp(amount, _, owner, publisher, size, _) => Advertises(ctx, s, amount, owner, publisher, size, s')
    case NoteOp(amount, _, owner, _, _) => WritesNote(ctx, s, amount, owner, s')
    case PacketOp(id, amount, _, sender, claimKey, count, rp, _, seed) => SendsPacket(s, id, amount, sender, claimKey, count, rp, seed, s')
    case ClaimOp(id, to) => ClaimsShare(ctx, s, id, to, s')
    case VoteOp(id, restricted, slate) => MovesVote(ctx, s, id, restricted, slate, s')
    case SlateOp(ids) => DefinesSlate(ctx, s, ids, s')
    case RegisterOp(name, owner, active, payRate, _, _) => Registers(ctx, s, name, owner, active, payRate, s')
    case UpdateOp(id, key, payRate, _) => Updates(ctx, s, id, key, payRate, s')
    case PayOp(amount, account) => WithdrawsPay(s, amount, account, s')
    case SigningKeyOp(id, key, _) => SetsSigningKey(ctx, s, id, key, s')
    case CreateAssetOp(asset, _) => CreatesAsset(s, asset, s')
    case IssueOp(amount, asset) => Issues(s, amount, asset, s')
    case ChangeAssetOp(id, change) => ChangesAsset(ctx, s, id, change, s')
    case ChipsOp(amount, asset, owner, collateral) => BuysChips(s, amount, asset, owner, collateral, s')
    case DataOp => s' == s
  }

  /** Every accepted operation does what it should. */
  lemma StepDoes(ctx: Context, s: Working, op: Operation)
    requires Keyed(s.records) && IdsUpTo(s.records, s.lastAccountId) && Accepts(ctx, s, op)
    ensures Does(ctx, s, op, Step(ctx, s, op))
  {
    match op
    case DepositOp(amount, c) => DepositDoes(ctx, s, amount, c);
    case WithdrawOp(id, amount) => WithdrawDoes(ctx, s, id, amount);
    case BurnOp(amount, asset, account, size) => BurnDoes(ctx, s, amount, asset, account, size);
    case AdOp(amount, asset, owner, publisher, size, signer) => AdDoes(ctx, s, amount, asset, owner, publisher, size, signer);
    case NoteOp(amount, asset, owner, size, signer) => NoteDoes(ctx, s, amount, asset, owner, size, signer);
    case PacketOp(id, amount, asset, sender, claimKey, count, rp, size, seed) =>
      PacketDoes(ctx, s, id, amount, asset, sender, claimKey, count, rp, size, seed);
    case ClaimOp(id, to) => ClaimDoes(ctx, s, id, to);
    case VoteOp(id, restricted, slate) => VoteDoes(ctx, s, id, restricted, slate);
    case SlateOp(ids) => SlateDoes(ctx, s, ids);
    case RegisterOp(name, owner, active, payRate, _, _) => RegisterDoes(ctx, s, name, owner, active, payRate);
    case UpdateOp(id, key, payRate, extra) => UpdateDoes(ctx, s, id, key, payRate, extra);
    case PayOp(amount, account) => PayDoes(ctx, s, amount, account);
    case SigningKeyOp(id, key, extra) => SigningKeyDoes(ctx, s, id, key, extra);
    case CreateAssetOp(asset, accepted) => CreateAssetDoes(ctx, s, asset, accepted);
    case IssueOp(amount, asset) => IssueDoes(ctx, s, amount, asset);
    case ChangeAssetOp(id, change) => ChangeDoes(ctx, s, id, change);
    case ChipsOp(amount, asset, owner, collateral) => ChipsDo(ctx, s, amount, asset, owner, collateral);
    case DataOp =>
  }

  /* ---------------------------------------------------------------- what every operation keeps */

  /** Every account stays, with its name and its owner key. */
  ghost predicate AccountsStay(before: Records, after: Records) {
    forall id {:trigger GetAccount(before, id)} {:trigger GetAccount(after, id)} | GetAccount(before, id).Some? ::
      && GetAccount(after, id).Some? && GetAccount(after, id).value.name == GetAccount(before, id).value.name
      && GetAccount(after, id).value.ownerKey == GetAccount(before, id).value.ownerKey
  }

  /** Records fit their keys, production counters and accounts stay. */
  ghost predicate Keeps(before: Records, after: Records) {
    Keyed(after) && SameCounters(before, after) && AccountsStay(before, after)
  }

  lemma OthersKeep(before: Records, after: Records, ks: set<Key>)
    requires Keyed(before) && Touched(before, after, ks)
    requires forall k | k in ks :: !k.AccountKey? && (k in after ==> KeyedAt(after, k))
    ensures Keeps(before, after) && (ReferenceKey !in ks ==> ReferenceOf(after) == ReferenceOf(before))
  {
    forall k | k in after ensures KeyedAt(after, k) {
      assert k !in ks ==> KeyedAt(before, k);
    }
    forall id ensures GetAccount(after, id) == GetAccount(before, id) && (AccountKey(id) in after <==> AccountKey(id) in before) {
    }
  }

  lemma AccountKeeps(before: Records, after: Records, id: AccountId)
    requires Keyed(before) && Touched(before, after, {AccountKey(id)}) && GetAccount(after, id).Some?
    requires var acc := GetAccount(after, id).value;
             acc.id == id && forall duty: Duty :: Charge(AccountRecord(acc), duty) == Counter(before, id, duty)
    requires GetAccount(before, id).Some? ==>
               && GetAccount(after, id).value.name == GetAccount(before, id).value.name
               && GetAccount(after, id).value.ownerKey == GetAccount(before, id).value.ownerKey
    ensures Keeps(before, after) && ReferenceOf(after) == ReferenceOf(before)
  {
    forall k | k in after ensures KeyedAt(after, k) {
      assert k != AccountKey(id) ==> KeyedAt(before, k);
    }
    forall d | d != id ensures GetAccount(after, d) == GetAccount(before, d) && (AccountKey(d) in after <==> AccountKey(d) in before) {
    }
  }

  lemma DepositKeeps(ctx: Context, s: Working, amount: int, c: Condition)
    requires Keyed(s.records) && MayDeposit(s.records, amount, c)
    ensures Keeps(s.records, AfterDeposit(ctx, s, amount, c).records)
    ensures ReferenceOf(AfterDeposit(ctx, s, amount, c).records) == ReferenceOf(s.records)
  {
    var r, r' := s.records, AfterDeposit(ctx, s, amount, c).records;
    DepositDoes(ctx, s, amount, c);
    assert BalanceKey(c) in r ==> KeyedAt(r, BalanceKey(c));
    OthersKeep(r, r', {BalanceKey(c)});
  }

  lemma WithdrawKeeps(ctx: Context, s: Working, id: Condition, amount: int)
    requires Keyed(s.records) && MayWithdrawFrom(ctx, s.records, id, amount)
    ensures Keeps(s.records, AfterWithdraw(ctx, s, id, amount).records)
    ensures ReferenceOf(AfterWithdraw(ctx, s, id, amount).records) == ReferenceOf(s.records)
  {
    var r, r' := s.records, AfterWithdraw(ctx, s, id, amount).records;
    WithdrawDoes(ctx, s, id, amount);
    assert KeyedAt(r, BalanceKey(id)) && KeyedAt(r, AssetKey(id.asset));
    OthersKeep(r, r', {BalanceKey(id), AssetKey(id.asset)});
  }

  lemma BurnKeeps(ctx: Context, s: Working, amount: int, asset: AssetId, account: AccountId, size: nat)
    requires Keyed(s.records) && MayBurn(ctx, s.records, amount, asset, account, size)
    ensures Keeps(s.records, AfterBurn(ctx, s, amount, asset, account).records)
    ensures ReferenceOf(AfterBurn(ctx, s, amount, asset, account).records) == ReferenceOf(s.records)
  {
    var r, r' := s.records, AfterBurn(ctx, s, amount, asset, account).records;
    BurnDoes(ctx, s, amount, asset, account, size);
    assert KeyedAt(r, AssetKey(asset));
    OthersKeep(r, r', {AssetKey(asset), BurnKey(account, ctx.trx)});
  }

  lemma AdKeeps(ctx: Context, s: Working, amount: int, asset: AssetId, owner: AccountId, publisher: AccountId, size: nat, signer: Address)
    requires Keyed(s.records) && MayAdvertise(ctx, s.records, amount, asset, owner, publisher, size, signer)
    ensures Keeps(s.records, AfterAd(ctx, s, amount, owner, publisher, size).records)
    ensures ReferenceOf(AfterAd(ctx, s, amount, owner, publisher, size).records) == ReferenceOf(s.records)
  {
    var r, r' := s.records, AfterAd(ctx, s, amount, owner, publisher, size).records;
    var space := Plain(GetAccount(r, AbsId(owner)).value.ActiveKey(), BASE_ASSET);
    AdDoes(ctx, s, amount, asset, owner, publisher, size, signer);
    assert BalanceKey(space) in r ==> KeyedAt(r, BalanceKey(space));
    OthersKeep(r, r', {BalanceKey(space), AdKey(owner, ctx.trx)});
  }

  lemma NoteKeeps(ctx: Context, s: Working, amount: int, asset: AssetId, owner: AccountId, size: nat, signer: Address)
    requires Keyed(s.records) && MayWriteNote(ctx, s.records, amount, asset, owner, size, signer)
    ensures Keeps(s.records, AfterNote(ctx, s, amount, owner).records)
    ensures ReferenceOf(AfterNote(ctx, s, amount, owner).records) == ReferenceOf(s.records)
  {
    var r, r' := s.records, AfterNote(ctx, s, amount, owner).records;
    NoteDoes(ctx, s, amount, asset, owner, size, signer);
    OthersKeep(r, r', {RewardKey, NoteKey(owner, ctx.trx)});
  }

  lemma PacketKeeps(ctx: Context, s: Working, id: PacketId, amount: int, asset: AssetId, sender: AccountId, claimKey: Address, count: nat,
                    rp: Option<int>, size: nat, seed: nat)
    requires Keyed(s.records) && MaySendPacket(ctx, s.records, id, amount, asset, sender, count, size)
    ensures Keeps(s.records, AfterPacket(s, id, amount, sender, claimKey, count, rp, seed).records)
    ensures ReferenceOf(AfterPacket(s, id, amount, sender, claimKey, count, rp, seed).records) == ReferenceOf(s.records)
  {
    var r, r' := s.records, AfterPacket(s, id, amount, sender, claimKey, count, rp, seed).records;
    PacketDoes(ctx, s, id, amount, asset, sender, claimKey, count, rp, size, seed);
    OthersKeep(r, r', {PacketKey(id)});
  }

  lemma VoteKeeps(ctx: Context, s: Working, id: Condition, restricted: Option<Address>, slate: SlateId)
    requires Keyed(s.records) && MayVote(ctx, s.records, id, restricted, slate)
    ensures Keeps(s.records, AfterVote(ctx, s, id, restricted, slate).records)
    ensures ReferenceOf(AfterVote(ctx, s, id, restricted, slate).records) == ReferenceOf(s.records)
  {
    var r, r' := s.records, AfterVote(ctx, s, id, restricted, slate).records;
    VoteDoes(ctx, s, id, restricted, slate);
    assert KeyedAt(r, BalanceKey(id)) && (BalanceKey(VoteTarget(id, slate)) in r ==> KeyedAt(r, BalanceKey(VoteTarget(id, slate))));
    OthersKeep(r, r', {BalanceKey(id), BalanceKey(VoteTarget(id, slate))});
  }

  lemma SlateKeeps(ctx: Context, s: Working, ids: seq<AccountId>)
    requires Keyed(s.records) && MayDefineSlate(ctx, s.records, ids)
    ensures Keeps(s.records, AfterSlate(ctx, s, ids).records) && ReferenceOf(AfterSlate(ctx, s, ids).records) == ReferenceOf(s.records)
  {
    var r, r' := s.records, AfterSlate(ctx, s, ids).records;
    SlateDoes(ctx, s, ids);
    OthersKeep(r, r', {SlateKey(ctx.slateId(set d | d in ids))});
  }

  lemma ClaimKeeps(ctx: Context, s: Working, id: PacketId, to: AccountId)
    requires Keyed(s.records) && ctx.ClaimPays(s.records, id, to).Some?
    ensures Keeps(s.records, AfterClaim(ctx, s, id, to).records)
  {
    var r, r' := s.records, AfterClaim(ctx, s, id, to).records;
    var packet := GetPacket(r, id).value;
    var target := Plain(GetAccount(r, AbsId(to)).value.ActiveKey(), packet.asset);
    ClaimDoes(ctx, s, id, to);
    assert KeyedAt(r, PacketKey(id)) && (BalanceKey(target) in r ==> KeyedAt(r, BalanceKey(target)));
    assert ReferenceKey in r ==> KeyedAt(r, ReferenceKey);
    OthersKeep(r, r', {BalanceKey(target), PacketKey(id), ReferenceKey});
  }

  lemma RegisterKeeps(ctx: Context, s: Working, name: string, owner: Address, active: Address, payRate: nat)
    requires Keyed(s.records) && IdsUpTo(s.records, s.lastAccountId)
    ensures Keeps(s.records, AfterRegister(ctx, s, name, owner, active, payRate).records)
    ensures ReferenceOf(AfterRegister(ctx, s, name, owner, active, payRate).records) == ReferenceOf(s.records)
  {
    var r, r' := s.records, AfterRegister(ctx, s, name, owner, active, payRate).records;
    RegisterDoes(ctx, s, name, owner, active, payRate);
    AccountKeeps(r, r', s.lastAccountId + 1);
  }

  lemma UpdateKeeps(ctx: Context, s: Working, id: AccountId, key: Option<Address>, payRate: nat, extra: set<Address>)
    requires Keyed(s.records) && MayUpdate(ctx, s.records, id, key, payRate, extra)
    ensures Keeps(s.records, AfterUpdate(ctx, s, id, key, payRate, extra).records)
    ensures ReferenceOf(AfterUpdate(ctx, s, id, key, payRate, extra).records) == ReferenceOf(s.records)
  {
    var r, r' := s.records, AfterUpdate(ctx, s, id, key, payRate, extra).records;
    UpdateDoes(ctx, s, id, key, payRate, extra);
    assert KeyedAt(r, AccountKey(id));
    AccountKeeps(r, r', id);
  }

  lemma PayKeeps(ctx: Context, s: Working, amount: int, account: AccountId)
    requires Keyed(s.records) && MayWithdrawPay(ctx, s.records, amount, account)
    ensures Keeps(s.records, AfterPay(s, amount, account).records)
    ensures ReferenceOf(AfterPay(s, amount, account).records) == ReferenceOf(s.records)
  {
    var r, r' := s.records, AfterPay(s, amount, account).records;
    PayDoes(ctx, s, amount, account);
    assert KeyedAt(r, AccountKey(AbsId(account)));
    AccountKeeps(r, r', AbsId(account));
  }

  lemma SigningKeyKeeps(ctx: Context, s: Working, id: AccountId, key: Address, extra: set<Address>)
    requires Keyed(s.records) && MaySetSigningKey(ctx, s.records, id, key, extra)
    ensures Keeps(s.records, AfterSigningKey(ctx, s, id, key).records)
    ensures ReferenceOf(AfterSigningKey(ctx, s, id, key).records) == ReferenceOf(s.records)
  {
    var r, r' := s.records, AfterSigningKey(ctx, s, id, key).records;
    SigningKeyDoes(ctx, s, id, key, extra);
    assert KeyedAt(r, AccountKey(id));
    AccountKeeps(r, r', id);
  }

  lemma CreateAssetKeeps(ctx: Context, s: Working, asset: Asset, accepted: bool)
    requires Keyed(s.records) && MayCreateAsset(s, asset, accepted)
    ensures Keeps(s.records, AfterCreateAsset(ctx, s, asset).records)
    ensures ReferenceOf(AfterCreateAsset(ctx, s, asset).records) == ReferenceOf(s.records)
  {
    var r, r' := s.records, AfterCreateAsset(ctx, s, asset).records;
    CreateAssetDoes(ctx, s, asset, accepted);
    OthersKeep(r, r', {AssetKey(s.lastAssetId + 1)});
  }

  lemma IssueKeeps(ctx: Context, s: Working, amount: int, asset: AssetId)
    requires Keyed(s.records) && MayIssue(ctx, s.records, amount, asset)
    ensures Keeps(s.records, AfterIssue(s, amount, asset).records)
    ensures ReferenceOf(AfterIssue(s, amount, asset).records) == ReferenceOf(s.records)
  {
    var r, r' := s.records, AfterIssue(s, amount, asset).records;
    IssueDoes(ctx, s, amount, asset);
    assert KeyedAt(r, AssetKey(AbsId(asset)));
    OthersKeep(r, r', {AssetKey(AbsId(asset))});
  }

  lemma ChangeKeeps(ctx: Context, s: Working, id: AssetId, change: AssetChange)
    requires Keyed(s.records) && MayChangeAsset(ctx, s.records, id, change)
    ensures Keeps(s.records, AfterChange(ctx, s, id, change).records)
    ensures ReferenceOf(AfterChange(ctx, s, id, change).records) == ReferenceOf(s.records)
  {
    var r, r' := s.records, AfterChange(ctx, s, id, change).records;
    ChangeDoes(ctx, s, id, change);
    assert KeyedAt(r, AssetKey(id));
    OthersKeep(r, r', {AssetKey(id)});
  }

  lemma ChipsKeep(ctx: Context, s: Working, amount: int, asset: AssetId, owner: Address, collateral: int)
    requires Keyed(s.records) && MayBuyChips(s.records, amount, asset)
    ensures Keeps(s.records, AfterChips(ctx, s, amount, asset, owner, collateral).records)
    ensures ReferenceOf(AfterChips(ctx, s, amount, asset, owner, collateral).records) == ReferenceOf(s.records)
  {
    var r, r' := s.records, AfterChips(ctx, s, amount, asset, owner, collateral).records;
    ChipsDo(ctx, s, amount, asset, owner, collateral);
    assert KeyedAt(r, AssetKey(asset)) && (BalanceKey(Plain(owner, asset)) in r ==> KeyedAt(r, BalanceKey(Plain(owner, asset))));
    OthersKeep(r, r', {BalanceKey(Plain(owner, asset)), AssetKey(asset)});
  }

  /** What every operation keeps, and what it pays twice. */
  lemma StepKeeps(ctx: Context, s: Working, op: Operation)
    requires Keyed(s.records) && IdsUpTo(s.records, s.lastAccountId) && Accepts(ctx, s, op)
    ensures Keeps(s.records, Step(ctx, s, op).records)
    ensures ReferenceOf(Step(ctx, s, op).records) == ctx.ReferenceAfter(s.records, op, ReferenceOf(s.records))
  {
    match op
    case DepositOp(amount, c) => DepositKeeps(ctx, s, amount, c);
    case WithdrawOp(id, amount) => WithdrawKeeps(ctx, s, id, amount);
    case BurnOp(amount, asset, account, size) => BurnKeeps(ctx, s, amount, asset, account, size);
    case AdOp(amount, asset, owner, publisher, size, signer) => AdKeeps(ctx, s, amount, asset, owner, publisher, size, signer);
    case NoteOp(amount, asset, owner, size, signer) => NoteKeeps(ctx, s, amount, asset, owner, size, signer);
    case PacketOp(id, amount, asset, sender, claimKey, count, rp, size, seed) =>
      PacketKeeps(ctx, s, id, amount, asset, sender, claimKey, count, rp, size, seed);
    case ClaimOp(id, to) =>
      ClaimKeeps(ctx, s, id, to);
      ClaimDoes(ctx, s, id, to);
    case VoteOp(id, restricted, slate) => VoteKeeps(ctx, s, id, restricted, slate);
    case SlateOp(ids) => SlateKeeps(ctx, s, ids);
    case RegisterOp(name, owner, active, payRate, _, _) => RegisterKeeps(ctx, s, name, owner, active, payRate);
    case UpdateOp(id, key, payRate, extra) => UpdateKeeps(ctx, s, id, key, payRate, extra);
    case PayOp(amount, account) => PayKeeps(ctx, s, amount, account);
    case SigningKeyOp(id, key, extra) => SigningKeyKeeps(ctx, s, id, key, extra);
    case CreateAssetOp(asset, accepted) => CreateAssetKeeps(ctx, s, asset, accepted);
    case IssueOp(amount, asset) => IssueKeeps(ctx, s, amount, asset);
    case ChangeAssetOp(id, change) => ChangeKeeps(ctx, s, id, change);
    case ChipsOp(amount, asset, owner, collateral) => ChipsKeep(ctx, s, amount, asset, owner, collateral);
    case DataOp =>
  }
}
