/** The registered operations: when each is accepted, and what it does to the state that a transaction is evaluated on. */
module Operations {
  import opened Prelude
  import opened Arithmetic
  import opened Records
  import opened Ledger
  import opened Packets
  import opened Vesting
  import opened Schedule

  const MAX_DEPOSIT := 100000000000000
  const MAX_SHARES := 1000000000000000
  const MAX_SLATE_SIZE := 101 + 101 / 10
  const VOTE_UPDATE_PERIOD := 60 * 60
  const VOTE_UPDATE_FEE := PRECISION / 2
  const BURN_FEE := PRECISION
  const NOTE_FEE := PRECISION * 5
  const AD_FEE := PRECISION
  const MAX_MARKET_FEE_RATE := 10000

  datatype EvalError =
    | NegativeDeposit | NegativeWithdraw | InvalidWithdrawCondition | UnknownBalance | InsufficientFunds
    | MissingSignature | UnknownSlate | UnknownAccount | NotADelegate | AccountRetracted | PayBalanceRemaining
    | UnknownAsset | NotUserIssued | NegativeIssue | OverIssue | AmountTooLarge | InvalidAmount | OutstandingShares
    | TooManyDelegates | NegativeFee | InsufficientFee | NameOrKeyRefused | AssetRefused | AssertionFailed

  type Outcome = Option<EvalError>

  function Max(x: int, y: int): int {
    if x < y then y else x
  }

  function AbsId(id: int): int {
    if id < 0 then -id else id
  }

  /** Deposit dates are averaged by amount. */
  function MeanDate(oldDate: Time, oldAmount: int, now: Time, amount: int): Time
    requires oldAmount >= 0 && amount > 0
  {
    (oldDate * oldAmount + now * amount) / (oldAmount + amount)
  }

  /** The mean, by amount, rounded down. */
  predicate IsMeanDate(date: Time, oldDate: Time, oldAmount: int, now: Time, amount: int) {
    (oldAmount + amount) * date <= oldDate * oldAmount + now * amount < (oldAmount + amount) * date + (oldAmount + amount)
  }

  lemma MeanIs(oldDate: Time, oldAmount: int, now: Time, amount: int)
    requires oldAmount >= 0 && amount > 0
    ensures IsMeanDate(MeanDate(oldDate, oldAmount, now, amount), oldDate, oldAmount, now, amount)
  {
    DivRoundsDown(oldDate * oldAmount + now * amount, oldAmount + amount);
  }

  const BLOCKS_PER_DAY := 60 * 60 / 10 * 24
  const BLOCKS_PER_TWO_WEEKS := 14 * BLOCKS_PER_DAY

  /** The price of an account name by its length. */
  function AccountFee(length: nat): int {
    if length > 6 then PRECISION
    else if length > 4 then 1000 * PRECISION
    else if length > 1 then 10000 * PRECISION
    else 100000 * PRECISION
  }

  /** What a block may issue to its producer: a two-week share of the collected base fees. */
  function MaxPayPerBlock(r: Records): int {
    if GetAsset(r, BASE_ASSET).Some? then GetAsset(r, BASE_ASSET).value.collectedFees / BLOCKS_PER_TWO_WEEKS else 0
  }

  function DelegateFee(r: Records, payRate: nat): int {
    ((BLOCKS_PER_TWO_WEEKS * MaxPayPerBlock(r)) / NUM_DELEGATES * payRate) / 100
  }

  const ALL_FLAGS := {DynamicMaxSupply, DynamicFees, HaltedMarkets, HaltedWithdrawals, RetractableBalances, RestrictedDeposits}

  predicate IsPowerOfTen(n: nat) {
    n in {1, 10, 100, 1000, 10000, 100000, 1000000, 10000000, 100000000, 1000000000, 10000000000, 100000000000,
          1000000000000, 10000000000000, 100000000000000, 1000000000000000}
  }

  function AssetFee(symbolLength: nat): int {
    if symbolLength <= 5 then 100 * 5000 * PRECISION else 5000 * PRECISION
  }

  predicate NameTaken(r: Records, name: string) {
    exists k | k in r && k.AccountKey? :: GetAccount(r, k.account).Some? && GetAccount(r, k.account).value.name == name
  }

  predicate KeyTaken(r: Records, key: Address) {
    exists k | k in r && k.AccountKey? :: OwnsKey(r, k.account, key)
  }

  /** The address index has an entry for the key. It covers the addresses of all accounts, except for that of the
      null key, and `extra` holds the entries it has beyond those. */
  predicate Indexed(r: Records, extra: set<Address>, key: Address) {
    key in extra || (key != NULL_KEY && KeyTaken(r, key))
  }

  lemma FreeKeyIsUnowned(r: Records, extra: set<Address>, key: Address)
    requires !Indexed(r, extra, key)
    ensures key == NULL_KEY || forall id :: !OwnsKey(r, id, key)
  {
    forall id ensures OwnsKey(r, id, key) ==> AccountKey(id) in r {
    }
  }

  predicate SymbolTaken(r: Records, symbol: string) {
    exists k | k in r && k.AssetKey? :: GetAsset(r, k.asset).Some? && GetAsset(r, k.asset).value.symbol == symbol
  }

  /** No record was added or removed, and no production slot charged. */
  ghost predicate SameKeys(before: Records, after: Records) {
    before.Keys == after.Keys && ReferenceOf(after) == ReferenceOf(before) && SameCounters(before, after)
  }

  ghost predicate IdsUpTo(r: Records, last: AccountId) {
    last >= 0 && forall id | AccountKey(id) in r :: id <= last
  }

  datatype AssetChange =
    | Properties(issuer: Option<AccountId>, name: Option<string>, precision: Option<nat>, maxSupply: Option<int>,
                 withdrawalFee: Option<int>, marketFeeRate: Option<nat>)
    | Permissions(authority: Option<Authority>, permissions: Option<set<Flag>>, active: Option<set<Flag>>)
    | Whitelisted(owner: Address, add: bool)

  /** The registered operations. In those that look a key up in the address index, `extra` holds the entries of the
      index beyond the addresses that the records show. */
  datatype Operation =
    | DepositOp(amount: int, condition: Condition)
    | WithdrawOp(id: Condition, amount: int)
    | BurnOp(amount: int, asset: AssetId, account: AccountId, messageSize: nat)
    | AdOp(amount: int, asset: AssetId, owner: AccountId, publisher: AccountId, messageSize: nat, signer: Address)
    | NoteOp(amount: int, asset: AssetId, owner: AccountId, messageSize: nat, signer: Address)
    | PacketOp(packet: PacketId, amount: int, asset: AssetId, sender: AccountId, claimKey: Address, count: nat,
               requiredRp: Option<int>, messageSize: nat, seed: nat)
    | ClaimOp(packet: PacketId, to: AccountId)
    | VoteOp(id: Condition, restrictedOwner: Option<Address>, slate: SlateId)
    | SlateOp(ids: seq<AccountId>)
    | RegisterOp(name: string, ownerKey: Address, activeKey: Address, payRate: nat, nameOk: bool, extra: set<Address>)
    | UpdateOp(account: AccountId, newKey: Option<Address>, payRate: nat, extra: set<Address>)
    | PayOp(amount: int, account: AccountId)
    | SigningKeyOp(account: AccountId, signingKey: Address, extra: set<Address>)
    | CreateAssetOp(newAsset: Asset, accepted: bool)
    | IssueOp(amount: int, asset: AssetId)
    | ChangeAssetOp(asset: AssetId, change: AssetChange)
    | ChipsOp(amount: int, asset: AssetId, buyer: Address, collateral: int)
    | DataOp

  /** No claim in the name of the unclaimed marker: such a claim, and no other, is paid twice. */
  predicate RealClaimant(op: Operation) {
    op.ClaimOp? ==> op.to != UNCLAIMED
  }

  /** The reference after shares were paid out of a packet and left in it. */
  function Twice(ref: Reference, asset: AssetId, paid: int): Reference {
    ref.(paidTwice := Add(ref.paidTwice, asset, paid))
  }

  /** The same slots, and no less paid twice. */
  ghost predicate NoLess(before: Reference, after: Reference) {
    && before.produced == after.produced && before.missed == after.missed
    && forall a :: At(before.paidTwice, a) <= At(after.paidTwice, a)
  }

  /** The block and transaction an evaluation runs in. `parentSigned` holds the accounts one of whose
      parent accounts has signed. */
  datatype Context = Context(now: Time, headNum: nat, trx: TransactionId, signed: set<Address>, skipSignatures: bool,
                             parentSigned: set<AccountId>, slateId: set<AccountId> -> SlateId) {
    predicate Signed(a: Address) {
      skipSignatures || a in signed
    }

    function SignedBy(owners: set<Address>): nat {
      if skipSignatures then |owners| else |owners * signed|
    }

    predicate VerifyAuthority(authority: Authority) {
      SignedBy(authority.owners) >= authority.required
    }

    /** Why a withdrawal is refused, in the order of the checks. */
    function WithdrawRefused(b: Balance, asset: Asset, amount: int): Outcome {
      var spendable := Spendable(b, now);
      if spendable.None? then Some(AssertionFailed)
      else if amount > spendable.value then Some(InsufficientFunds)
      else if asset.IsActive(RetractableBalances) && VerifyAuthority(asset.authority) then None
      else if asset.IsActive(HaltedWithdrawals) then Some(AssertionFailed)
      else
        match b.condition.lock
        case Signature(owner, _) => if Signed(owner) then None else Some(MissingSignature)
        case Vesting(owner, _, _, _) => if Signed(owner) then None else Some(MissingSignature)
        case MultiSig(required, owners, _) => if SignedBy(owners) < required then Some(MissingSignature) else None
        case _ => Some(InvalidWithdrawCondition)
    }

    /** The lock of a balance is opened by the signatures. */
    predicate Unlocks(lock: Lock) {
      match lock
      case Signature(owner, _) => Signed(owner)
      case Vesting(owner, _, _, _) => Signed(owner)
      case MultiSig(required, owners, _) => SignedBy(owners) >= required
      case _ => false
    }

    /** Shares may leave a balance within what is spendable: by the issuer's right to retract, or with the signatures of
        the owners unless withdrawals are halted. */
    predicate MaySpend(b: Balance, asset: Asset, amount: int) {
      && Spendable(b, now).Some? && amount <= Spendable(b, now).value
      && ((asset.IsActive(RetractableBalances) && VerifyAuthority(asset.authority)) ||
          (!asset.IsActive(HaltedWithdrawals) && Unlocks(b.condition.lock)))
    }

    lemma RefusedUnlessMaySpend(b: Balance, asset: Asset, amount: int)
      ensures WithdrawRefused(b, asset, amount).None? <==> MaySpend(b, asset, amount)
    {
    }

    /** A vote update names a new restricted owner with the signatures of all owners, or comes at least an hour after the
        last change with their signatures or that of the restricted owner. */
    predicate MayUpdateVote(b: Balance, newRestrictedOwner: Option<Address>) {
      var ownersSigned := forall o | o in b.condition.Owners() :: Signed(o);
      if newRestrictedOwner.Some? && newRestrictedOwner != b.restrictedOwner then ownersSigned
      else (now - b.lastUpdate) % TWO32 >= VOTE_UPDATE_PERIOD && (ownersSigned || (b.restrictedOwner.Some? && Signed(b.restrictedOwner.value)))
    }

    lemma RefusedUnlessMayUpdateVote(b: Balance, newRestrictedOwner: Option<Address>)
      ensures VoteUpdateRefused(b, newRestrictedOwner).None? <==> MayUpdateVote(b, newRestrictedOwner)
    {
    }

    /** Without the issuer's right to retract, shares leave a balance only within what is spendable and with the
        signature of an owner, unless the lock asks for no signature at all. */
    lemma OnlyOwnersSpend(b: Balance, asset: Asset, amount: int)
      requires WithdrawRefused(b, asset, amount).None? && !asset.IsActive(RetractableBalances)
      ensures Spendable(b, now).Some? && amount <= Spendable(b, now).value
      ensures (exists o | o in b.condition.Owners() :: Signed(o)) || (b.condition.lock.MultiSig? && b.condition.lock.required == 0)
      ensures !b.condition.lock.NullLock? && !b.condition.lock.Escrow? && !asset.IsActive(HaltedWithdrawals)
    {
      match b.condition.lock
      case Signature(owner, _) =>
        assert Signed(owner);
      case Vesting(owner, _, _, _) =>
        assert Signed(owner);
      case MultiSig(required, owners, _) =>
        if required > 0 {
          var signers := if skipSignatures then owners else owners * signed;
          assert |signers| > 0;
          var o :| o in signers;
          assert Signed(o);
        }
      case _ =>
    }

    /** What a claim pays, or none when it is refused: the first share that is not claimed, or nothing when there is
        none left. */
    function ClaimPays(r: Records, id: PacketId, to: AccountId): Option<int> {
      var acc, packet := GetAccount(r, AbsId(to)), GetPacket(r, id);
      if acc.None? || packet.None? || !Signed(acc.value.ownerKey) || !Signed(packet.value.claimKey) then None
      else if packet.value.requiredRp.Some? && acc.value.rp < packet.value.requiredRp.value then None
      else
        match ClaimOf(packet.value.shares, to)
        case Exhausted => Some(0)
        case AlreadyClaimed => None
        case Paid(index, _) => Some(packet.value.shares[FirstUnclaimed(packet.value.shares)].amount)
    }

    /** What an operation pays out of a packet and leaves in it as well. */
    function PaysTwice(r: Records, op: Operation): int {
      if op.ClaimOp? && op.to == UNCLAIMED && ClaimPays(r, op.packet, op.to).Some? then ClaimPays(r, op.packet, op.to).value else 0
    }

    /** The reference after an operation that was accepted. */
    function ReferenceAfter(r: Records, op: Operation, reference: Reference): Reference {
      if PaysTwice(r, op) > 0 && GetPacket(r, op.packet).Some?
      then Twice(reference, GetPacket(r, op.packet).value.asset, PaysTwice(r, op)) else reference
    }

    /** Why a vote update is refused: a new restricted owner needs the owners' signatures, and otherwise the
        voting key is enough once per period. A missing restricted owner counts as not signed. */
    function VoteUpdateRefused(b: Balance, newRestrictedOwner: Option<Address>): Outcome {
      var ownersSigned := forall o | o in b.condition.Owners() :: Signed(o);
      if newRestrictedOwner.Some? && newRestrictedOwner != b.restrictedOwner then
        if ownersSigned then None else Some(MissingSignature)
      else if (now - b.lastUpdate) % TWO32 < VOTE_UPDATE_PERIOD then Some(AssertionFailed)
      else if (b.restrictedOwner.Some? && Signed(b.restrictedOwner.value)) || ownersSigned then None
      else Some(MissingSignature)
    }

    function NewRestrictedOwner(b: Balance, newRestrictedOwner: Option<Address>): Option<Address> {
      if newRestrictedOwner.Some? then newRestrictedOwner else b.restrictedOwner
    }

    predicate AccountOrParentSigned(acc: Account) {
      (!acc.IsRetracted() && (Signed(acc.ActiveKey()) || Signed(acc.ownerKey))) || acc.id in parentSigned
    }

    /** The record of a newly registered asset: its issuer account is the authority, with every permission. */
    function NewAsset(r: Records, asset: Asset, id: AssetId): Asset {
      var owners := if asset.issuer.User? && GetAccount(r, asset.issuer.account).Some?
                    then {GetAccount(r, asset.issuer.account).value.ActiveKey()} else {};
      asset.(id := id, authority := Authority(1, owners), permissions := ALL_FLAGS, activeFlags := {}, whitelist := {},
             withdrawalFee := 0, marketFeeRate := 0, collectedFees := 0)
    }

    /** A user-issued asset after a change of its properties, permissions or whitelist, or why it is refused. */
    function ChangedAsset(r: Records, a: Asset, change: AssetChange): Result<Asset, EvalError> {
      if !a.issuer.User? then Err(NotUserIssued)
      else
        match change
        case Whitelisted(owner, add) =>
          if !add then Ok(a.(whitelist := a.whitelist - {owner}))
          else if !a.IsActive(RestrictedDeposits) then Err(AssertionFailed)
          else Ok(a.(whitelist := a.whitelist + {owner}))
        case Permissions(authority, permissions, active) =>
          if !VerifyAuthority(a.authority) then Err(MissingSignature)
          else if authority.None? && permissions.None? && active.None? then Err(AssertionFailed)
          else if authority.Some? && (authority.value.required < 1 || authority.value.owners == {}) then Err(InvalidAmount)
          else if permissions.Some? && a.currentSupply != 0 && !(permissions.value <= a.permissions) then Err(OutstandingShares)
          else
            var b := a.(authority := if authority.Some? then authority.value else a.authority,
                        permissions := if permissions.Some? then permissions.value else a.permissions);
            if active.Some? && !(active.value <= b.permissions) then Err(AssertionFailed)
            else Ok(b.(activeFlags := if active.Some? then active.value else b.activeFlags))
        case Properties(issuer, name, precision, maxSupply, withdrawalFee, marketFeeRate) =>
          var newMax := if maxSupply.Some? then maxSupply.value else a.maxSupply;
          if !VerifyAuthority(a.authority) then Err(MissingSignature)
          else if issuer.None? && name.None? && precision.None? && maxSupply.None? && withdrawalFee.None? && marketFeeRate.None? then Err(AssertionFailed)
          else if issuer.Some? && GetAccount(r, issuer.value).None? then Err(UnknownAccount)
          else if name.Some? && name.value == "" then Err(AssetRefused)
          else if precision.Some? && a.currentSupply != 0 then Err(OutstandingShares)
          else if precision.Some? && !IsPowerOfTen(precision.value) then Err(InvalidAmount)
          else if maxSupply.Some? && a.currentSupply != 0 && !a.IsActive(DynamicMaxSupply) then Err(OutstandingShares)
          else if maxSupply.Some? && (newMax < a.currentSupply || newMax > MAX_SHARES) then Err(InvalidAmount)
          else if (withdrawalFee.Some? || marketFeeRate.Some?) && a.currentSupply != 0 && !a.IsActive(DynamicFees) then Err(OutstandingShares)
          else if withdrawalFee.Some? && !(0 <= withdrawalFee.value <= newMax) then Err(InvalidAmount)
          else if marketFeeRate.Some? && marketFeeRate.value > MAX_MARKET_FEE_RATE then Err(InvalidAmount)
          else Ok(a.(issuer := if issuer.Some? then User(issuer.value) else a.issuer,
                     name := if name.Some? then name.value else a.name,
                     precision := if precision.Some? then precision.value else a.precision,
                     maxSupply := newMax,
                     withdrawalFee := if withdrawalFee.Some? then withdrawalFee.value else a.withdrawalFee,
                     marketFeeRate := if marketFeeRate.Some? then marketFeeRate.value else a.marketFeeRate))
    }

    /** The account after the key part of an update. */
    function UpdatedKeys(acc: Account, activeKey: Option<Address>, keyFree: bool): Result<Account, EvalError> {
      if acc.IsRetracted() then Err(AccountRetracted)
      else if activeKey.None? || activeKey.value == acc.ActiveKey() then
        if AccountOrParentSigned(acc) then Ok(acc) else Err(MissingSignature)
      else if activeKey.value != NULL_KEY && !keyFree then Err(NameOrKeyRefused)
      else if activeKey.value == NULL_KEY && acc.IsDelegate() && acc.delegate.value.payBalance > 0 then Err(PayBalanceRemaining)
      else if !Signed(acc.ownerKey) && acc.id !in parentSigned then Err(MissingSignature)
      else if now == 0 then Err(AssertionFailed)
      else Ok(acc.(activeKeys := SetKey(acc.activeKeys, now, activeKey.value)))
    }

    function WithSigningKey(acc: Account, key: Address): Account
      requires acc.IsDelegate()
    {
      acc.(delegate := Some(acc.delegate.value.(signingKeys := SetKey(acc.delegate.value.signingKeys, headNum, key))), lastUpdate := now)
    }

    /** The account after an update, or why it is refused. */
    function UpdatedAccount(acc: Account, activeKey: Option<Address>, payRate: nat, keyFree: bool): Result<Account, EvalError> {
      var keyed := UpdatedKeys(acc, activeKey, keyFree);
      if keyed.Err? then keyed
      else if !acc.IsDelegate() then
        Ok(keyed.value.(lastUpdate := now,
                        delegate := if payRate > 100 then None else Some(NewDelegate(payRate, headNum, keyed.value.ActiveKey()))))
      else if payRate > 100 || payRate > acc.delegate.value.payRate then Err(AssertionFailed)
      else Ok(keyed.value.(lastUpdate := now, delegate := Some(acc.delegate.value.(payRate := payRate))))
    }

    /** A delegate stays one, keeps pay and votes, and is not retracted while pay is left. */
    lemma UpdateKeepsDelegate(acc: Account, activeKey: Option<Address>, payRate: nat, keyFree: bool)
      requires UpdatedAccount(acc, activeKey, payRate, keyFree).Ok?
      ensures var acc' := UpdatedAccount(acc, activeKey, payRate, keyFree).value;
              && acc'.id == acc.id && !acc.IsRetracted()
              && (acc.IsDelegate() ==> acc'.delegate == Some(acc.delegate.value.(payRate := payRate)))
              && (acc.IsDelegate() && acc'.IsRetracted() ==> acc.delegate.value.payBalance <= 0)
              && (!acc.IsDelegate() && acc'.IsDelegate() ==> acc'.delegate.value.votesFor == acc'.delegate.value.payBalance == 0)
              && forall duty: Duty :: Charge(AccountRecord(acc'), duty) == Charge(AccountRecord(acc), duty)
    {
      if activeKey.Some? {
        SetKeyLatest(acc.activeKeys, now, activeKey.value);
      }
    }
  }

  lemma NewAccountKeys(id: AccountId, name: string, ownerKey: Address, activeKey: Address, payRate: nat, now: Time, num: nat)
    ensures Keys(NewAccount(id, name, ownerKey, activeKey, payRate, now, num)) <= {ownerKey, activeKey}
  {
  }

  /** A history gains no key but the one that is set. */
  lemma {:induction false} SetKeyKeys(h: KeyHistory, at: nat, key: Address)
    ensures KeysOf(SetKey(h, at, key)) <= KeysOf(h) + {key}
  {
    var h' := SetKey(h, at, key);
    var n := |h| - 1;
    if h != [] && h[n].0 > at {
      SetKeyKeys(h[..n], at, key);
    }
    forall a | a in KeysOf(h') ensures a in KeysOf(h) + {key} {
      var i :| 0 <= i < |h'| && h'[i].1 == a;
      if h != [] && h[n].0 > at {
        if i < |h'| - 1 {
          assert a in KeysOf(SetKey(h[..n], at, key)) by {
            assert SetKey(h[..n], at, key)[i].1 == a;
          }
          PrefixKeys(h, n);
        } else {
          assert h[n].1 == a;
        }
      } else if i < |h'| - 1 {
        assert h[i].1 == a;
      }
    }
  }

  lemma PrefixKeys(h: KeyHistory, n: nat)
    requires n <= |h|
    ensures KeysOf(h[..n]) <= KeysOf(h)
  {
    forall a | a in KeysOf(h[..n]) ensures a in KeysOf(h) {
      var i :| 0 <= i < n && h[..n][i].1 == a;
      assert h[i].1 == a;
    }
  }

  lemma UpdatedKeysAvailable(r: Records, ctx: Context, acc: Account, activeKey: Option<Address>, payRate: nat, extra: set<Address>)
    requires KeysUnique(r) && GetAccount(r, acc.id) == Some(acc)
    requires ctx.UpdatedAccount(acc, activeKey, payRate, activeKey.Some? && !Indexed(r, extra, activeKey.value)).Ok?
    ensures KeysAvailable(r, ctx.UpdatedAccount(acc, activeKey, payRate, activeKey.Some? && !Indexed(r, extra, activeKey.value)).value)
  {
    var acc' := ctx.UpdatedAccount(acc, activeKey, payRate, activeKey.Some? && !Indexed(r, extra, activeKey.value)).value;
    if activeKey.Some? {
      SetKeyKeys(acc.activeKeys, ctx.now, activeKey.value);
    }
    assert acc'.ActiveKey() != NULL_KEY ==> acc'.ActiveKey() in KeysOf(acc'.activeKeys) by {
      if acc'.ActiveKey() != NULL_KEY {
        assert acc'.activeKeys[|acc'.activeKeys| - 1].1 == acc'.ActiveKey();
      }
    }
    if activeKey.Some? && !Indexed(r, extra, activeKey.value) {
      FreeKeyIsUnowned(r, extra, activeKey.value);
    }
    forall id, a | a != NULL_KEY && a in Keys(acc') && OwnsKey(r, id, a) ensures id == acc.id {
      assert a in Keys(acc) ==> OwnsKey(r, acc.id, a);
    }
  }

  lemma SigningKeyAvailable(r: Records, ctx: Context, acc: Account, key: Address, extra: set<Address>)
    requires KeysUnique(r) && GetAccount(r, acc.id) == Some(acc) && acc.IsDelegate() && !Indexed(r, extra, key)
    ensures KeysAvailable(r, ctx.WithSigningKey(acc, key))
  {
    SetKeyKeys(acc.delegate.value.signingKeys, ctx.headNum, key);
    FreeKeyIsUnowned(r, extra, key);
    forall id, a | a != NULL_KEY && a in Keys(ctx.WithSigningKey(acc, key)) && OwnsKey(r, id, a) ensures id == acc.id {
      assert a in Keys(acc) ==> OwnsKey(r, acc.id, a);
    }
  }

  /* ---------------------------------------------------------------- the state of an evaluation */

  /** What the operations of a transaction change: the records, the last ids, the running total, the least fees, the
      pending corrections of the votes, and the account that earns reputation. */
  datatype Working = Working(records: Records, lastAccountId: AccountId, lastAssetId: AssetId, fees: map<AssetId, int>,
                             minFees: map<AssetId, int>, deltas: map<AccountId, int>, rpAccount: Option<AccountId>)

  /* ---------------------------------------------------------------- balances */

  predicate MayDeposit(r: Records, amount: int, c: Condition) {
    && 0 < amount <= MAX_DEPOSIT && (c.lock.Signature? || c.lock.MultiSig? || c.lock.Escrow?)
    && GetAsset(r, c.asset).Some? && (GetAsset(r, c.asset).value.issuer.Market? ==> c.slate == 0)
    && (forall o | o in c.Owners() :: GetAsset(r, c.asset).value.IsWhitelisted(o))
    && (c.asset == BASE_ASSET && c.slate != 0 ==> GetSlate(r, c.slate).Some?)
  }

  predicate MayWithdrawFrom(ctx: Context, r: Records, id: Condition, amount: int) {
    && amount > 0 && GetBalance(r, id).Some? && GetAsset(r, id.asset).Some?
    && ctx.MaySpend(GetBalance(r, id).value, GetAsset(r, id.asset).value, amount)
  }

  /** The yield that is paid with a withdrawal from a balance of a market-issued asset. */
  function YieldDue(ctx: Context, r: Records, id: Condition): int
    requires GetBalance(r, id).Some? && GetAsset(r, id.asset).Some?
  {
    var b, asset := GetBalance(r, id).value, GetAsset(r, id.asset).value;
    if asset.issuer.Market? then Yield(ctx.now - b.depositDate, b.amount, asset.collectedFees, asset.currentSupply) else 0
  }

  predicate MayVote(ctx: Context, r: Records, id: Condition, restrictedOwner: Option<Address>, slate: SlateId) {
    && GetBalance(r, id).Some? && id.asset == BASE_ASSET && id.lock.Signature? && AmountOf(r, id) > VOTE_UPDATE_FEE
    && ctx.MayUpdateVote(GetBalance(r, id).value, restrictedOwner) && (slate != 0 ==> GetSlate(r, slate).Some?)
  }

  predicate MayDefineSlate(ctx: Context, r: Records, ids: seq<AccountId>) {
    var slate := set d | d in ids;
    && 0 < |ids| <= MAX_SLATE_SIZE && (forall d | d in ids && d >= 0 :: IsDelegate(r, d))
    && (GetSlate(r, ctx.slateId(slate)).Some? ==> GetSlate(r, ctx.slateId(slate)).value == slate)
  }

  /* ---------------------------------------------------------------- messages and packets */

  predicate MayBurn(ctx: Context, r: Records, amount: int, asset: AssetId, account: AccountId, size: nat) {
    && amount > 0 && (size > 0 ==> asset == BASE_ASSET) && (asset == BASE_ASSET ==> amount >= (size / 1024 + 1) * BURN_FEE)
    && GetAsset(r, asset).Some? && !GetAsset(r, asset).value.issuer.Market?
    && (account != 0 ==> GetAccount(r, AbsId(account)).Some?) && BurnKey(account, ctx.trx) !in r
  }

  function AdPrice(size: nat): int {
    (size / 400 + 1) * AD_FEE
  }

  predicate MayAdvertise(ctx: Context, r: Records, amount: int, asset: AssetId, owner: AccountId, publisher: AccountId, size: nat, signer: Address) {
    && amount > 0 && size > 0 && asset == BASE_ASSET && amount >= AdPrice(size)
    && owner != 0 && GetAccount(r, AbsId(owner)).Some? && publisher != 0 && GetAccount(r, AbsId(publisher)).Some?
    && GetAccount(r, AbsId(publisher)).value.ActiveKey() == signer && AdKey(owner, ctx.trx) !in r
  }

  predicate MayWriteNote(ctx: Context, r: Records, amount: int, asset: AssetId, owner: AccountId, size: nat, signer: Address) {
    && amount > 0 && size > 0 && asset == BASE_ASSET && amount >= (size / 1024 + 1) * NOTE_FEE
    && GetAccount(r, AbsId(owner)).Some? && GetAccount(r, AbsId(owner)).value.ActiveKey() == signer && NoteKey(owner, ctx.trx) !in r
  }

  predicate MaySendPacket(ctx: Context, r: Records, id: PacketId, amount: int, asset: AssetId, sender: AccountId, count: nat, size: nat) {
    && amount > 0 && 0 < size < 100 && asset == BASE_ASSET && 0 < count <= MAX_SHARES_PER_PACKET
    && amount >= PACKET_FEE + count * PACKET_UNIT
    && GetAccount(r, AbsId(sender)).Some? && ctx.Signed(GetAccount(r, AbsId(sender)).value.ownerKey)
    && ((amount / PACKET_UNIT) % TWO32 >= count || count == 1) && PacketKey(id) !in r
  }

  /* ---------------------------------------------------------------- accounts */

  predicate MayRegister(ctx: Context, r: Records, name: string, ownerKey: Address, activeKey: Address, nameOk: bool, extra: set<Address>) {
    && nameOk && !NameTaken(r, name) && ctx.now != 0
    && !Indexed(r, extra, ownerKey) && !Indexed(r, extra, activeKey)
  }

  predicate ChangesKey(acc: Account, newKey: Option<Address>) {
    newKey.Some? && newKey.value != acc.ActiveKey()
  }

  /** A retracted account cannot be updated. A new key must be free, or the null key of an account without pay, and needs
      the owner key or a parent; other changes need a signature of the account or a parent. A delegate's rate cannot rise. */
  predicate MayUpdate(ctx: Context, r: Records, id: AccountId, newKey: Option<Address>, payRate: nat, extra: set<Address>) {
    && GetAccount(r, id).Some? && var acc := GetAccount(r, id).value;
    && !acc.IsRetracted()
    && (if ChangesKey(acc, newKey)
        then && (if newKey.value == NULL_KEY then acc.IsDelegate() ==> acc.delegate.value.payBalance <= 0 else !Indexed(r, extra, newKey.value))
             && (ctx.Signed(acc.ownerKey) || acc.id in ctx.parentSigned) && ctx.now != 0
        else ctx.AccountOrParentSigned(acc))
    && (acc.IsDelegate() ==> payRate <= 100 && payRate <= acc.delegate.value.payRate)
  }

  predicate MayWithdrawPay(ctx: Context, r: Records, amount: int, account: AccountId) {
    && amount > 0 && IsDelegate(r, AbsId(account))
    && var acc := GetAccount(r, AbsId(account)).value;
    && amount <= acc.delegate.value.payBalance && ctx.AccountOrParentSigned(acc)
  }

  predicate MaySetSigningKey(ctx: Context, r: Records, id: AccountId, key: Address, extra: set<Address>) {
    && IsDelegate(r, id) && var acc := GetAccount(r, id).value;
    && !acc.IsRetracted() && !Indexed(r, extra, key) && (ctx.Signed(acc.SigningKey()) || ctx.AccountOrParentSigned(acc))
  }

  /* ---------------------------------------------------------------- assets */

  predicate MayCreateAsset(s: Working, asset: Asset, accepted: bool) {
    && accepted && asset.name != "" && !SymbolTaken(s.records, asset.symbol) && AssetKey(s.lastAssetId + 1) !in s.records
    && (asset.issuer.User? ==> GetAccount(s.records, asset.issuer.account).Some?)
    && 0 < asset.maxSupply <= MAX_SHARES && IsPowerOfTen(asset.precision)
  }

  predicate MayIssue(ctx: Context, r: Records, amount: int, asset: AssetId) {
    && amount > 0 && GetAsset(r, AbsId(asset)).Some? && var a := GetAsset(r, AbsId(asset)).value;
    && a.issuer.User? && ctx.VerifyAuthority(a.authority)
    && (if asset > 0 then a.currentSupply + amount <= a.maxSupply else amount <= a.collectedFees)
  }

  predicate MayChangeAsset(ctx: Context, r: Records, id: AssetId, change: AssetChange) {
    GetAsset(r, id).Some? && ctx.ChangedAsset(r, GetAsset(r, id).value, change).Ok?
  }

  predicate MayBuyChips(r: Records, amount: int, asset: AssetId) {
    amount > 0 && GetAsset(r, asset).Some?
  }

  /* ---------------------------------------------------------------- the state after each operation */

  /** The corrections after the delegates that a slate names have gained votes. */
  function Corrected(deltas: map<AccountId, int>, members: set<AccountId>, amount: int): map<AccountId, int> {
    map d | d in deltas.Keys + (set m | m in members && m >= 0) :: At(deltas, d) + (if d in members && d >= 0 then amount else 0)
  }

  /** The corrections after a balance has gained shares: only base shares under a slate count. */
  function BalanceDeltas(deltas: map<AccountId, int>, r: Records, c: Condition, amount: int): map<AccountId, int> {
    if c.asset == BASE_ASSET && c.slate != 0 && GetSlate(r, c.slate).Some? then Corrected(deltas, GetSlate(r, c.slate).value, amount) else deltas
  }

  lemma CorrectedNext(deltas: map<AccountId, int>, members: set<AccountId>, amount: int, id: AccountId)
    requires id !in members
    ensures Corrected(deltas, members + {id}, amount) ==
            if id >= 0 then Add(Corrected(deltas, members, amount), id, amount) else Corrected(deltas, members, amount)
  {
  }

  lemma CorrectedAdjusts(r: Records, deltas: map<AccountId, int>, slate: SlateId, amount: int)
    requires slate != 0 && GetSlate(r, slate).Some?
    ensures Adjusted(r, deltas, slate, amount, Corrected(deltas, GetSlate(r, slate).value, amount))
  {
  }

  function BalanceOr(r: Records, c: Condition): Balance {
    if GetBalance(r, c).Some? then GetBalance(r, c).value else EmptyBalance(c)
  }

  function AfterDeposit(ctx: Context, s: Working, amount: int, c: Condition): Working
    requires amount > 0
  {
    var b := BalanceOr(s.records, c);
    var date := if b.amount <= 0 then ctx.now else MeanDate(b.depositDate, b.amount, ctx.now, amount);
    s.(records := s.records[BalanceKey(c) := BalanceRecord(b.(amount := b.amount + amount, depositDate := date, lastUpdate := ctx.now))],
       fees := Add(s.fees, c.asset, -amount), deltas := BalanceDeltas(s.deltas, s.records, c, amount))
  }

  function FeeRaised(ctx: Context, minFees: map<AssetId, int>, asset: Asset): map<AssetId, int> {
    if asset.withdrawalFee != 0 && !ctx.VerifyAuthority(asset.authority) && At(minFees, asset.id) < asset.withdrawalFee
    then minFees[asset.id := asset.withdrawalFee] else minFees
  }

  function AfterYield(r: Records, asset: Asset, y: int): Records {
    if y > 0 then r[AssetKey(asset.id) := AssetRecord(asset.(collectedFees := asset.collectedFees - y))] else r
  }

  function AfterWithdraw(ctx: Context, s: Working, id: Condition, amount: int): Working
    requires GetBalance(s.records, id).Some? && GetAsset(s.records, id.asset).Some?
  {
    var b, asset, y := GetBalance(s.records, id).value, GetAsset(s.records, id.asset).value, YieldDue(ctx, s.records, id);
    var b' := b.(amount := b.amount + y - amount, depositDate := if y > 0 then ctx.now else b.depositDate, lastUpdate := ctx.now);
    s.(records := AfterYield(s.records, asset, y)[BalanceKey(id) := BalanceRecord(b')],
       fees := Add(s.fees, id.asset, amount), minFees := FeeRaised(ctx, s.minFees, asset), deltas := BalanceDeltas(s.deltas, s.records, id, -amount))
  }

  function VoteTarget(id: Condition, slate: SlateId): Condition
    requires id.lock.Signature?
  {
    Condition(BASE_ASSET, slate, Signature(id.lock.owner, 0))
  }

  function Emptied(r: Records, b: Balance, now: Time): Records {
    r[BalanceKey(b.condition) := BalanceRecord(b.(amount := 0, lastUpdate := now))]
  }

  /** The balance that receives what a vote update moves. */
  function Refilled(r: Records, b: Balance, target: Condition, restrictedOwner: Option<Address>, now: Time): Balance
    requires b.amount > VOTE_UPDATE_FEE
  {
    var t := if GetBalance(r, target).Some? then GetBalance(r, target).value else b.(condition := target, amount := 0);
    t.(depositDate := if t.amount <= 0 then now else MeanDate(b.depositDate, t.amount, now, b.amount),
       amount := t.amount + (b.amount - VOTE_UPDATE_FEE), lastUpdate := now, restrictedOwner := restrictedOwner)
  }

  /** A balance is emptied and all but the fee goes to the target. */
  function VoteMoved(s: Working, b: Balance, target: Condition, restrictedOwner: Option<Address>, now: Time): Working
    requires b.amount > VOTE_UPDATE_FEE
  {
    var r := Emptied(s.records, b, now);
    s.(records := r[BalanceKey(target) := BalanceRecord(Refilled(r, b, target, restrictedOwner, now))],
       fees := Add(s.fees, BASE_ASSET, VOTE_UPDATE_FEE),
       deltas := BalanceDeltas(BalanceDeltas(s.deltas, s.records, b.condition, -b.amount), r, target, b.amount - VOTE_UPDATE_FEE))
  }

  function AfterVote(ctx: Context, s: Working, id: Condition, restrictedOwner: Option<Address>, slate: SlateId): Working
    requires MayVote(ctx, s.records, id, restrictedOwner, slate)
  {
    var b := GetBalance(s.records, id).value;
    VoteMoved(s, b, VoteTarget(id, slate), ctx.NewRestrictedOwner(b, restrictedOwner), ctx.now)
  }

  function AfterSlate(ctx: Context, s: Working, ids: seq<AccountId>): Working {
    var slate := set d | d in ids;
    if GetSlate(s.records, ctx.slateId(slate)).Some? then s
    else s.(records := s.records[SlateKey(ctx.slateId(slate)) := SlateRecord(slate)])
  }

  function AfterBurn(ctx: Context, s: Working, amount: int, asset: AssetId, account: AccountId): Working
    requires GetAsset(s.records, asset).Some?
  {
    var a := GetAsset(s.records, asset).value;
    s.(records := s.records[AssetKey(asset) := AssetRecord(a.(currentSupply := a.currentSupply - amount))]
                           [BurnKey(account, ctx.trx) := MessageRecord(amount)],
       fees := Add(s.fees, asset, -amount))
  }

  function AfterAd(ctx: Context, s: Working, amount: int, owner: AccountId, publisher: AccountId, size: nat): Working
    requires GetAccount(s.records, AbsId(owner)).Some?
  {
    var space := Plain(GetAccount(s.records, AbsId(owner)).value.ActiveKey(), BASE_ASSET);
    var b := Credited(s.records, space, amount - AdPrice(size), ctx.now);
    s.(records := s.records[BalanceKey(space) := BalanceRecord(b)][AdKey(owner, ctx.trx) := MessageRecord(amount)],
       fees := Add(s.fees, BASE_ASSET, AdPrice(size) - amount), minFees := Add(s.minFees, BASE_ASSET, AdPrice(size)),
       rpAccount := Some(AbsId(publisher)))
  }

  function AfterNote(ctx: Context, s: Working, amount: int, owner: AccountId): Working {
    var fee := amount * 3 / 10;
    s.(records := s.records[RewardKey := RewardRecord(Add(Pool(s.records), BASE_ASSET, amount - fee))][NoteKey(owner, ctx.trx) := MessageRecord(amount)],
       fees := Add(s.fees, BASE_ASSET, fee - amount), minFees := Add(s.minFees, BASE_ASSET, fee), rpAccount := Some(AbsId(owner)))
  }

  function AfterPacket(s: Working, id: PacketId, amount: int, sender: AccountId, claimKey: Address, count: nat, requiredRp: Option<int>,
                       seed: nat): Working
  {
    var shares := SplitOf(amount, count, seed);
    if shares.None? then s
    else s.(records := s.records[PacketKey(id) := PacketRecord(Packet(id, BASE_ASSET, amount, sender, claimKey, requiredRp, shares.value))],
            fees := Add(s.fees, BASE_ASSET, -LeftAmount(shares.value)), minFees := Add(s.minFees, BASE_ASSET, PACKET_FEE),
            rpAccount := Some(AbsId(sender)))
  }

  /** The records after a share was paid, with the note that it was paid twice. */
  function AfterShare(r: Records, target: Condition, packet: Packet, to: AccountId, paid: int, now: Time): Records {
    var r' := r[BalanceKey(target) := BalanceRecord(Credited(r, target, paid, now))][PacketKey(packet.id) := PacketRecord(packet)];
    if to == UNCLAIMED && paid > 0 then r'[ReferenceKey := ReferenceRecord(Twice(ReferenceOf(r), packet.asset, paid))] else r'
  }

  function AfterClaim(ctx: Context, s: Working, id: PacketId, to: AccountId): Working
    requires ctx.ClaimPays(s.records, id, to).Some?
  {
    var acc, packet := GetAccount(s.records, AbsId(to)).value, GetPacket(s.records, id).value;
    match ClaimOf(packet.shares, to)
    case Paid(index, shares) =>
      var paid := ctx.ClaimPays(s.records, id, to).value;
      s.(records := AfterShare(s.records, Plain(acc.ActiveKey(), packet.asset), packet.(id := id, shares := shares), to, paid, ctx.now),
         fees := Add(Add(s.fees, packet.asset, paid), packet.asset, -paid))
    case _ => s
  }

  function AfterRegister(ctx: Context, s: Working, name: string, ownerKey: Address, activeKey: Address, payRate: nat): Working {
    var id := s.lastAccountId + 1;
    s.(records := s.records[AccountKey(id) := AccountRecord(NewAccount(id, name, ownerKey, activeKey, payRate, ctx.now, ctx.headNum))],
       lastAccountId := id,
       minFees := Add(s.minFees, BASE_ASSET, AccountFee(|name|) + (if payRate <= 100 then DelegateFee(s.records, payRate) else 0)))
  }

  function AfterUpdate(ctx: Context, s: Working, id: AccountId, newKey: Option<Address>, payRate: nat, extra: set<Address>): Working
    requires GetAccount(s.records, id).Some?
  {
    var acc := GetAccount(s.records, id).value;
    var updated := ctx.UpdatedAccount(acc, newKey, payRate, newKey.Some? && !Indexed(s.records, extra, newKey.value));
    if updated.Err? then s
    else s.(records := s.records[AccountKey(id) := AccountRecord(updated.value)],
            minFees := if !acc.IsDelegate() && payRate <= 100 then Add(s.minFees, BASE_ASSET, DelegateFee(s.records, payRate)) else s.minFees)
  }

  function AfterPay(s: Working, amount: int, account: AccountId): Working
    requires IsDelegate(s.records, AbsId(account))
  {
    var id := AbsId(account);
    var acc := GetAccount(s.records, id).value;
    var acc' := acc.(delegate := Some(acc.delegate.value.(payBalance := acc.delegate.value.payBalance - amount)));
    s.(records := s.records[AccountKey(id) := AccountRecord(acc')], fees := Add(s.fees, BASE_ASSET, amount), deltas := Add(s.deltas, id, -amount))
  }

  function AfterSigningKey(ctx: Context, s: Working, id: AccountId, key: Address): Working
    requires IsDelegate(s.records, id)
  {
    s.(records := s.records[AccountKey(id) := AccountRecord(ctx.WithSigningKey(GetAccount(s.records, id).value, key))])
  }

  function AfterCreateAsset(ctx: Context, s: Working, asset: Asset): Working {
    var id := s.lastAssetId + 1;
    s.(records := s.records[AssetKey(id) := AssetRecord(ctx.NewAsset(s.records, asset, id))], lastAssetId := id,
       minFees := Add(s.minFees, BASE_ASSET, AssetFee(|asset.symbol|)),
       fees := Add(Add(s.fees, id, asset.currentSupply), BASE_ASSET, -asset.currentCollateral))
  }

  function AfterIssue(s: Working, amount: int, asset: AssetId): Working
    requires GetAsset(s.records, AbsId(asset)).Some?
  {
    var a := GetAsset(s.records, AbsId(asset)).value;
    var a' := if asset > 0 then a.(currentSupply := a.currentSupply + amount) else a.(collectedFees := a.collectedFees - amount);
    s.(records := s.records[AssetKey(AbsId(asset)) := AssetRecord(a')], fees := Add(s.fees, AbsId(asset), amount))
  }

  function AfterChange(ctx: Context, s: Working, id: AssetId, change: AssetChange): Working
    requires MayChangeAsset(ctx, s.records, id, change)
  {
    s.(records := s.records[AssetKey(id) := AssetRecord(ctx.ChangedAsset(s.records, GetAsset(s.records, id).value, change).value)])
  }

  function AfterChips(ctx: Context, s: Working, amount: int, asset: AssetId, owner: Address, collateral: int): Working
    requires GetAsset(s.records, asset).Some?
  {
    var b, a := BalanceOr(s.records, Plain(owner, asset)), GetAsset(s.records, asset).value;
    var a' := a.(currentCollateral := a.currentCollateral + collateral, currentSupply := a.currentSupply + amount);
    s.(records := s.records[BalanceKey(Plain(owner, asset)) := BalanceRecord(b.(amount := b.amount + amount, lastUpdate := ctx.now))]
                           [AssetKey(asset) := AssetRecord(a')],
       fees := Add(s.fees, BASE_ASSET, -collateral))
  }

  /* ---------------------------------------------------------------- one operation, and a transaction */

  /** When an operation is accepted. */
  predicate Accepts(ctx: Context, s: Working, op: Operation) {
    match op
    case DepositOp(amount, c) => MayDeposit(s.records, amount, c)
    case WithdrawOp(id, amount) => MayWithdrawFrom(ctx, s.records, id, amount)
    case BurnOp(amount, asset, account, size) => MayBurn(ctx, s.records, amount, asset, account, size)
    case AdOp(amount, asset, owner, publisher, size, signer) => MayAdvertise(ctx, s.records, amount, asset, owner, publisher, size, signer)
    case NoteOp(amount, asset, owner, size, signer) => MayWriteNote(ctx, s.records, amount, asset, owner, size, signer)
    case PacketOp(id, amount, asset, sender, _, count, _, size, _) => MaySendPacket(ctx, s.records, id, amount, asset, sender, count, size)
    case ClaimOp(id, to) => ctx.ClaimPays(s.records, id, to).Some?
    case VoteOp(id, restricted, slate) => MayVote(ctx, s.records, id, restricted, slate)
    case SlateOp(ids) => MayDefineSlate(ctx, s.records, ids)
    case RegisterOp(name, owner, active, _, nameOk, extra) => MayRegister(ctx, s.records, name, owner, active, nameOk, extra)
    case UpdateOp(id, key, payRate, extra) => MayUpdate(ctx, s.records, id, key, payRate, extra)
    case PayOp(amount, account) => MayWithdrawPay(ctx, s.records, amount, account)
    case SigningKeyOp(id, key, extra) => MaySetSigningKey(ctx, s.records, id, key, extra)
    case CreateAssetOp(asset, accepted) => MayCreateAsset(s, asset, accepted)
    case IssueOp(amount, asset) => MayIssue(ctx, s.records, amount, asset)
    case ChangeAssetOp(id, change) => MayChangeAsset(ctx, s.records, id, change)
    case ChipsOp(amount, asset, _, _) => MayBuyChips(s.records, amount, asset)
    case DataOp => true
  }

  /** The state after an accepted operation. */
  function Step(ctx: Context, s: Working, op: Operation): Working
    requires Accepts(ctx, s, op)
  {
    match op
    case DepositOp(amount, c) => AfterDeposit(ctx, s, amount, c)
    case WithdrawOp(id, amount) => AfterWithdraw(ctx, s, id, amount)
    case BurnOp(amount, asset, account, _) => AfterBurn(ctx, s, amount, asset, account)
    case AdOp(amount, _, owner, publisher, size, _) => AfterAd(ctx, s, amount, owner, publisher, size)
    case NoteOp(amount, _, owner, _, _) => AfterNote(ctx, s, amount, owner)
    case PacketOp(id, amount, _, sender, claimKey, count, rp, _, seed) => AfterPacket(s, id, amount, sender, claimKey, count, rp, seed)
    case ClaimOp(id, to) => AfterClaim(ctx, s, id, to)
    case VoteOp(id, restricted, slate) => AfterVote(ctx, s, id, restricted, slate)
    case SlateOp(ids) => AfterSlate(ctx, s, ids)
    case RegisterOp(name, owner, active, payRate, _, _) => AfterRegister(ctx, s, name, owner, active, payRate)
    case UpdateOp(id, key, payRate, extra) => AfterUpdate(ctx, s, id, key, payRate, extra)
    case PayOp(amount, account) => AfterPay(s, amount, account)
    case SigningKeyOp(id, key, _) => AfterSigningKey(ctx, s, id, key)
    case CreateAssetOp(asset, _) => AfterCreateAsset(ctx, s, asset)
    case IssueOp(amount, asset) => AfterIssue(s, amount, asset)
    case ChangeAssetOp(id, change) => AfterChange(ctx, s, id, change)
    case ChipsOp(amount, asset, owner, collateral) => AfterChips(ctx, s, amount, asset, owner, collateral)
    case DataOp => s
  }

  /** The state after the operations in order; none when one of them is refused. */
  function Run(ctx: Context, s: Working, ops: seq<Operation>): Option<Working> {
    if ops == [] then Some(s)
    else
      var before := Run(ctx, s, ops[..|ops| - 1]);
      if before.None? || !Accepts(ctx, before.value, ops[|ops| - 1]) then None else Some(Step(ctx, before.value, ops[|ops| - 1]))
  }

  /** A fee is accepted when it is not negative, covers the least fee and, unless it is zero, is in an existing asset. */
  predicate FeeOk(r: Records, fees: map<AssetId, int>, minFees: map<AssetId, int>, a: AssetId)
    requires a in fees
  {
    fees[a] >= 0 && fees[a] >= At(minFees, a) && (fees[a] != 0 ==> AssetKey(a) in r)
  }

  /** The end of a transaction is accepted. */
  predicate CanSettle(w: Working) {
    && (forall a | a in w.fees :: FeeOk(w.records, w.fees, w.minFees, a))
    && (forall a | a in w.fees && a != BASE_ASSET :: AssetKey(a) in w.records)
    && (w.rpAccount.Some? ==> AccountKey(w.rpAccount.value) in w.records)
  }

  /** What is left of the running total becomes collected fees. */
  function Collected(r: Records, fees: map<AssetId, int>): Records {
    map k | k in r ::
      if k.AssetKey? && r[k].AssetRecord? then AssetRecord(r[k].asset.(collectedFees := r[k].asset.collectedFees + At(fees, k.asset))) else r[k]
  }

  /** The corrections become votes of the delegates. */
  function Counted(r: Records, deltas: map<AccountId, int>): Records {
    map k | k in r ::
      if k.AccountKey? && r[k].AccountRecord? && r[k].account.IsDelegate() then AccountRecord(WithVotes(r[k].account, At(deltas, k.account))) else r[k]
  }

  function WithVotes(acc: Account, amount: int): Account
    requires acc.IsDelegate()
  {
    acc.(delegate := Some(acc.delegate.value.(votesFor := acc.delegate.value.votesFor + amount)))
  }

  /** The account that wrote or advertised gains reputation. */
  function Reputed(r: Records, rpAccount: Option<AccountId>, baseFees: int): Records {
    if rpAccount.None? || GetAccount(r, rpAccount.value).None? then r
    else
      var acc := GetAccount(r, rpAccount.value).value;
      r[AccountKey(rpAccount.value) := AccountRecord(acc.(rp := acc.rp + baseFees))]
  }

  function Settled(w: Working, baseFees: int): Records {
    Reputed(Counted(Collected(w.records, w.fees), w.deltas), w.rpAccount, baseFees)
  }

  /** What transactions change. */
  datatype Books = Books(records: Records, lastAccountId: AccountId, lastAssetId: AssetId)

  function Fresh(b: Books): Working {
    Working(b.records, b.lastAccountId, b.lastAssetId, map[], map[], map[], None)
  }

  /** The books after a transaction; none when it is refused. */
  function Evaluated(ctx: Context, b: Books, ops: seq<Operation>, baseFees: int): Option<Books> {
    var w := Run(ctx, Fresh(b), ops);
    if w.None? || !CanSettle(w.value) then None
    else Some(Books(Settled(w.value, baseFees), w.value.lastAccountId, w.value.lastAssetId))
  }

  lemma CollectedNone(r: Records)
    ensures Collected(r, map[]) == r
  {
  }

  lemma CollectedNext(r: Records, fees: map<AssetId, int>, a: AssetId, amount: int)
    requires a !in fees
    ensures Collected(r, fees[a := amount]) ==
            if GetAsset(r, a).None? then Collected(r, fees)
            else Collected(r, fees)[AssetKey(a) := AssetRecord(GetAsset(r, a).value.(collectedFees := GetAsset(r, a).value.collectedFees + amount))]
    ensures GetAsset(Collected(r, fees), a) == GetAsset(r, a)
  {
  }

  lemma CountedNone(r: Records)
    ensures Counted(r, map[]) == r
  {
  }

  lemma CountedNext(r: Records, deltas: map<AccountId, int>, id: AccountId)
    requires IsDelegate(r, id) && id in deltas
    ensures Counted(r, deltas) ==
            Counted(r[AccountKey(id) := AccountRecord(WithVotes(GetAccount(r, id).value, deltas[id]))], deltas - {id})
  {
  }

  lemma {:induction false} RunStops(ctx: Context, s: Working, ops: seq<Operation>, i: nat)
    requires i <= |ops| && Run(ctx, s, ops[..i]).None?
    ensures Run(ctx, s, ops).None?
    decreases |ops|
  {
    if i < |ops| {
      assert ops[..|ops| - 1][..i] == ops[..i];
      RunStops(ctx, s, ops[..|ops| - 1], i);
    } else {
      assert ops[..i] == ops;
    }
  }

  /** Only a registration adds an account, under the next id. */
  lemma StepIds(ctx: Context, s: Working, op: Operation)
    requires IdsUpTo(s.records, s.lastAccountId) && Accepts(ctx, s, op)
    ensures IdsUpTo(Step(ctx, s, op).records, Step(ctx, s, op).lastAccountId)
  {
  }
}
