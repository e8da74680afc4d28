/** The records of the chain state. A public key and the address derived from it are one value here,
    and a balance id, the hash of a withdraw condition, is the condition itself. */
module Records {
  import opened Prelude

  type AccountId = int
  type AssetId = int
  type SlateId = nat
  type PacketId = nat
  type TransactionId = nat
  type Address = nat
  type Time = nat

  const BASE_ASSET: AssetId := 0
  const UNCLAIMED: AccountId := -1
  const NULL_KEY: Address := 0

  datatype Lock =
    | NullLock
    | Signature(owner: Address, memo: nat)
    | Vesting(owner: Address, start: Time, duration: nat, original: int)
    | MultiSig(required: nat, owners: set<Address>, memo: nat)
    | Escrow(sender: Address, receiver: Address, agent: Address, agreement: nat)

  datatype Condition = Condition(asset: AssetId, slate: SlateId, lock: Lock) {
    function Owners(): set<Address> {
      match lock
      case NullLock => {}
      case Signature(owner, _) => {owner}
      case Vesting(owner, _, _, _) => {owner}
      case MultiSig(_, owners, _) => owners
      case Escrow(sender, receiver, agent, _) => {sender, receiver, agent}
    }
  }

  /** The plain condition of an owner without a slate. */
  function Plain(owner: Address, asset: AssetId): Condition {
    Condition(asset, 0, Signature(owner, 0))
  }

  datatype Balance = Balance(condition: Condition, amount: int, restrictedOwner: Option<Address>,
                             depositDate: Time, lastUpdate: Time)

  function EmptyBalance(condition: Condition): Balance {
    Balance(condition, 0, None, 0, 0)
  }

  /** Keys by the time or block number at which they were set, oldest first. */
  type KeyHistory = seq<(nat, Address)>

  function SetKey(h: KeyHistory, at: nat, key: Address): KeyHistory {
    if h == [] || h[|h| - 1].0 < at then h + [(at, key)]
    else if h[|h| - 1].0 == at then h[..|h| - 1] + [(at, key)]
    else SetKey(h[..|h| - 1], at, key) + [h[|h| - 1]]
  }

  function LatestKey(h: KeyHistory): Address {
    if h == [] then NULL_KEY else h[|h| - 1].1
  }

  /** Setting a key makes it the latest one, unless a later entry exists. */
  lemma {:induction false} SetKeyLatest(h: KeyHistory, at: nat, key: Address)
    ensures LatestKey(SetKey(h, at, key)) == (if h == [] || h[|h| - 1].0 <= at then key else LatestKey(h))
    ensures SetKey(h, at, key) != []
  {
  }

  datatype Delegate = Delegate(votesFor: int, payRate: nat, signingKeys: KeyHistory, payBalance: int, totalPaid: int,
                               blocksProduced: nat, blocksMissed: nat, lastBlockProduced: nat)

  function NewDelegate(payRate: nat, blockNum: nat, signingKey: Address): Delegate {
    Delegate(0, payRate, [(blockNum, signingKey)], 0, 0, 0, 0, 0)
  }

  datatype Account = Account(id: AccountId, name: string, ownerKey: Address, activeKeys: KeyHistory,
                             lastUpdate: Time, rp: int, delegate: Option<Delegate>) {
    function ActiveKey(): Address {
      LatestKey(activeKeys)
    }
    predicate IsRetracted() {
      ActiveKey() == NULL_KEY
    }
    predicate IsDelegate() {
      delegate.Some?
    }
    function SigningKey(): Address
      requires IsDelegate()
    {
      LatestKey(delegate.value.signingKeys)
    }
  }

  function KeysOf(h: KeyHistory): set<Address> {
    set i | 0 <= i < |h| :: h[i].1
  }

  function SigningKeysOf(acc: Account): set<Address> {
    if acc.IsDelegate() then KeysOf(acc.delegate.value.signingKeys) else {}
  }

  function AllKeys(acc: Account): set<Address> {
    {acc.ownerKey} + KeysOf(acc.activeKeys) + SigningKeysOf(acc)
  }

  /** The addresses under which an account is found: its owner key and all its active and signing keys, past and
      present. The null key stands for a key that was withdrawn, except as an owner key. */
  function Keys(acc: Account): set<Address> {
    {acc.ownerKey} + ((KeysOf(acc.activeKeys) + SigningKeysOf(acc)) - {NULL_KEY})
  }

  /** A newly registered account; it is a delegate when the pay rate is at most 100. */
  function NewAccount(id: AccountId, name: string, ownerKey: Address, activeKey: Address, payRate: nat, now: Time, blockNum: nat): Account {
    Account(id, name, ownerKey, [(now, activeKey)], now, 0, if payRate <= 100 then Some(NewDelegate(payRate, blockNum, activeKey)) else None)
  }

  datatype Issuer = God | NoIssuer | Market | User(account: AccountId) | Game(game: int)

  datatype Flag = DynamicMaxSupply | DynamicFees | HaltedMarkets | HaltedWithdrawals | RetractableBalances | RestrictedDeposits

  datatype Authority = Authority(required: nat, owners: set<Address>)

  datatype Asset = Asset(id: AssetId, symbol: string, issuer: Issuer, authority: Authority, permissions: set<Flag>,
                         activeFlags: set<Flag>, whitelist: set<Address>, name: string, precision: nat,
                         maxSupply: int, withdrawalFee: int, marketFeeRate: nat,
                         collectedFees: int, currentSupply: int, currentCollateral: int) {
    predicate HasPermission(f: Flag) {
      issuer.User? && f in permissions
    }
    predicate IsActive(f: Flag) {
      HasPermission(f) && f in activeFlags
    }
    predicate IsWhitelisted(a: Address) {
      !IsActive(RestrictedDeposits) || a in authority.owners || a in whitelist
    }
  }

  datatype Share = Share(amount: int, claimant: AccountId)

  datatype Packet = Packet(id: PacketId, asset: AssetId, amount: int, sender: AccountId, claimKey: Address,
                           requiredRp: Option<int>, shares: seq<Share>)

  /** What has not been claimed yet. */
  function LeftAmount(shares: seq<Share>): int {
    if shares == [] then 0
    else LeftAmount(shares[..|shares| - 1]) +
         (if shares[|shares| - 1].claimant == UNCLAIMED then shares[|shares| - 1].amount else 0)
  }

  /** What the invariants compare the records with: the production slots passed so far, by whether a block was
      produced in them, and the shares that were paid out of a packet and left in it as well. The record under
      `ReferenceKey` holds this; it is the one record the original does not have. */
  datatype Reference = Reference(produced: nat, missed: nat, paidTwice: map<AssetId, int>)

  datatype Key =
    | BalanceKey(condition: Condition)
    | AccountKey(account: AccountId)
    | AssetKey(asset: AssetId)
    | SlateKey(slate: SlateId)
    | PacketKey(packet: PacketId)
    | RewardKey
    | ReferenceKey
    | BurnKey(account: AccountId, trx: TransactionId)
    | AdKey(account: AccountId, trx: TransactionId)
    | NoteKey(account: AccountId, trx: TransactionId)

  datatype Record =
    | BalanceRecord(balance: Balance)
    | AccountRecord(account: Account)
    | AssetRecord(asset: Asset)
    | SlateRecord(slate: set<AccountId>)
    | PacketRecord(packet: Packet)
    | RewardRecord(fees: map<AssetId, int>)
    | MessageRecord(amount: int)
    | ReferenceRecord(reference: Reference)

  type Records = map<Key, Record>

  function GetBalance(r: Records, id: Condition): Option<Balance> {
    if BalanceKey(id) in r && r[BalanceKey(id)].BalanceRecord? then Some(r[BalanceKey(id)].balance) else None
  }

  function GetAccount(r: Records, id: AccountId): Option<Account> {
    if AccountKey(id) in r && r[AccountKey(id)].AccountRecord? then Some(r[AccountKey(id)].account) else None
  }

  function GetAsset(r: Records, id: AssetId): Option<Asset> {
    if AssetKey(id) in r && r[AssetKey(id)].AssetRecord? then Some(r[AssetKey(id)].asset) else None
  }

  function GetSlate(r: Records, id: SlateId): Option<set<AccountId>> {
    if SlateKey(id) in r && r[SlateKey(id)].SlateRecord? then Some(r[SlateKey(id)].slate) else None
  }

  function GetPacket(r: Records, id: PacketId): Option<Packet> {
    if PacketKey(id) in r && r[PacketKey(id)].PacketRecord? then Some(r[PacketKey(id)].packet) else None
  }

  predicate IsDelegate(r: Records, id: AccountId) {
    GetAccount(r, id).Some? && GetAccount(r, id).value.IsDelegate()
  }
}
