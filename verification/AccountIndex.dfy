/** The secondary indexes of the accounts: by name, by address and by votes. */
module AccountIndex {
  import opened Prelude
  import opened Records
  import opened Schedule
  import opened Operations
  import opened Evaluation
  import opened Ledger

  type Accounts = map<AccountId, Account>

  function Mapped(keys: set<Address>, id: AccountId): map<Address, AccountId> {
    map a | a in keys :: id
  }

  lemma MappedNext(m: map<Address, AccountId>, s: set<Address>, key: Address, id: AccountId)
    ensures var before, after := m + Mapped(s - {NULL_KEY}, id), m + Mapped(s + {key} - {NULL_KEY}, id);
            after == if key != NULL_KEY then before[key := id] else before
  {
  }

  lemma MappedTwice(m: map<Address, AccountId>, s: set<Address>, t: set<Address>, id: AccountId)
    ensures m + Mapped(s, id) + Mapped(t, id) == m + Mapped(s + t, id)
  {
  }

  ghost predicate NamesAgree(accounts: Accounts, names: map<string, AccountId>) {
    && (forall n | n in names :: names[n] in accounts && accounts[names[n]].name == n)
    && (forall id | id in accounts :: accounts[id].name in names && names[accounts[id].name] == id)
  }

  /** The addresses are mapped to exactly the accounts that have them. */
  ghost predicate AddressesAgree(accounts: Accounts, addresses: map<Address, AccountId>) {
    && (forall a | a in addresses :: addresses[a] in accounts && a in Keys(accounts[addresses[a]]))
    && (forall id, a | id in accounts && a in Keys(accounts[id]) :: a in addresses && addresses[a] == id)
  }

  datatype Vote = Vote(votes: int, id: AccountId)

  /** Delegates are listed until they retract. */
  predicate IsListed(acc: Account) {
    acc.IsDelegate() && !acc.IsRetracted()
  }

  function VoteOf(acc: Account): Vote
    requires acc.IsDelegate()
  {
    Vote(acc.delegate.value.votesFor, acc.id)
  }

  ghost predicate VotesAgree(accounts: Accounts, votes: set<Vote>) {
    && (forall v | v in votes :: v.id in accounts && IsListed(accounts[v.id]) && VoteOf(accounts[v.id]) == v)
    && (forall id | id in accounts && IsListed(accounts[id]) :: VoteOf(accounts[id]) in votes)
  }

  ghost predicate IdsAgree(accounts: Accounts) {
    forall id | id in accounts :: accounts[id].id == id
  }

  /* ---------------------------------------------------------------- what a store does to the indexes */

  function Prev(accounts: Accounts, id: AccountId): Option<Account> {
    if id in accounts then Some(accounts[id]) else None
  }

  function NamesAfter(names: map<string, AccountId>, prev: Option<Account>, acc: Account): map<string, AccountId> {
    (if prev.Some? && prev.value.name != acc.name then names - {prev.value.name} else names)[acc.name := acc.id]
  }

  /** The addresses that storing `acc` over `prev` erases. */
  function ErasedKeys(prev: Account, acc: Account): set<Address> {
    (if prev.ownerKey != acc.ownerKey then {prev.ownerKey} else {}) +
    (if prev.ActiveKey() != acc.ActiveKey() then KeysOf(prev.activeKeys) else {}) +
    (if prev.IsDelegate() && (!acc.IsDelegate() || prev.SigningKey() != acc.SigningKey()) then SigningKeysOf(prev) else {})
  }

  function AddressesAfter(addresses: map<Address, AccountId>, prev: Option<Account>, acc: Account): map<Address, AccountId> {
    (if prev.Some? then addresses - ErasedKeys(prev.value, acc) else addresses) + Mapped(Keys(acc), acc.id)
  }

  function VotesAfter(votes: set<Vote>, prev: Option<Account>, acc: Account): set<Vote> {
    (if prev.Some? && IsListed(prev.value) && (!IsListed(acc) || VoteOf(prev.value).votes != VoteOf(acc).votes)
     then votes - {VoteOf(prev.value)} else votes) +
    (if IsListed(acc) then {VoteOf(acc)} else {})
  }

  lemma InsertedInParts(m: map<Address, AccountId>, acc: Account)
    ensures var some := m[acc.ownerKey := acc.id] + Mapped(KeysOf(acc.activeKeys) - {NULL_KEY}, acc.id);
            && some + Mapped(SigningKeysOf(acc) - {NULL_KEY}, acc.id) == m + Mapped(Keys(acc), acc.id)
            && (!acc.IsDelegate() ==> some == m + Mapped(Keys(acc), acc.id))
  {
    var owner, active, signing := {acc.ownerKey}, KeysOf(acc.activeKeys) - {NULL_KEY}, SigningKeysOf(acc) - {NULL_KEY};
    assert Keys(acc) == owner + active + signing;
    assert m[acc.ownerKey := acc.id] == m + Mapped(owner, acc.id);
    MappedTwice(m, owner, active, acc.id);
    MappedTwice(m, owner + active, signing, acc.id);
    if !acc.IsDelegate() {
      assert owner + active + signing == owner + active;
    }
  }

  lemma StoreNames(accounts: Accounts, names: map<string, AccountId>, acc: Account)
    requires NamesAgree(accounts, names)
    ensures NamesAgree(accounts[acc.id := acc], NamesAfter(names, Prev(accounts, acc.id), acc)) <==>
            acc.name in names ==> names[acc.name] == acc.id
  {
    var accounts', names' := accounts[acc.id := acc], NamesAfter(names, Prev(accounts, acc.id), acc);
    if acc.name in names && names[acc.name] != acc.id {
      assert names[acc.name] in accounts' && names'[acc.name] == acc.id;
    }
  }

  /** No other account has one of the addresses. */
  predicate KeysFree(addresses: map<Address, AccountId>, acc: Account) {
    forall a | a in Keys(acc) && a in addresses :: addresses[a] == acc.id
  }

  /** Every address that is neither erased nor stored again would stay behind. */
  predicate NoStaleKeys(prev: Option<Account>, acc: Account) {
    prev.Some? ==> Keys(prev.value) <= ErasedKeys(prev.value, acc) + Keys(acc)
  }

  /** The null key is among the addresses that are erased only if no other account has it as its owner key. */
  predicate NullKept(addresses: map<Address, AccountId>, erased: set<Address>, id: AccountId) {
    NULL_KEY in erased && NULL_KEY in addresses ==> addresses[NULL_KEY] == id
  }

  /** What a store must find for the address index to stay exact: the addresses are free, none of the old ones
      stays behind, and the null key of another account is not erased. */
  predicate Storable(addresses: map<Address, AccountId>, prev: Option<Account>, acc: Account) {
    && KeysFree(addresses, acc)
    && NoStaleKeys(prev, acc)
    && (prev.Some? ==> NullKept(addresses, ErasedKeys(prev.value, acc), acc.id))
  }

  /** Storing an account keeps the address index exact if and only if that holds. */
  lemma StoreAddresses(accounts: Accounts, addresses: map<Address, AccountId>, acc: Account)
    requires AddressesAgree(accounts, addresses)
    ensures AddressesAgree(accounts[acc.id := acc], AddressesAfter(addresses, Prev(accounts, acc.id), acc)) <==>
            Storable(addresses, Prev(accounts, acc.id), acc)
  {
    if Storable(addresses, Prev(accounts, acc.id), acc) {
      KeepAddresses(accounts, addresses, acc);
    } else {
      LoseAddresses(accounts, addresses, acc);
    }
  }

  lemma LoseAddresses(accounts: Accounts, addresses: map<Address, AccountId>, acc: Account)
    requires AddressesAgree(accounts, addresses) && !Storable(addresses, Prev(accounts, acc.id), acc)
    ensures !AddressesAgree(accounts[acc.id := acc], AddressesAfter(addresses, Prev(accounts, acc.id), acc))
  {
    var prev := Prev(accounts, acc.id);
    var accounts', addresses' := accounts[acc.id := acc], AddressesAfter(addresses, prev, acc);
    if a: Address :| a in Keys(acc) && a in addresses && addresses[a] != acc.id {
      MissingEntry(accounts', addresses', addresses[a], a);
    } else if !NoStaleKeys(prev, acc) {
      var a :| a in Keys(prev.value) && a !in ErasedKeys(prev.value, acc) && a !in Keys(acc);
      assert a in addresses && addresses[a] == acc.id;
      WrongEntry(accounts', addresses', a);
    } else {
      MissingEntry(accounts', addresses', addresses[NULL_KEY], NULL_KEY);
    }
  }

  lemma MissingEntry(accounts: Accounts, addresses: map<Address, AccountId>, id: AccountId, a: Address)
    requires id in accounts && a in Keys(accounts[id]) && (a in addresses ==> addresses[a] != id)
    ensures !AddressesAgree(accounts, addresses)
  {
  }

  lemma WrongEntry(accounts: Accounts, addresses: map<Address, AccountId>, a: Address)
    requires a in addresses && (addresses[a] in accounts ==> a !in Keys(accounts[addresses[a]]))
    ensures !AddressesAgree(accounts, addresses)
  {
  }

  lemma ErasedAreOld(prev: Account, acc: Account)
    ensures ErasedKeys(prev, acc) <= AllKeys(prev)
  {
  }

  lemma KeepAddresses(accounts: Accounts, addresses: map<Address, AccountId>, acc: Account)
    requires AddressesAgree(accounts, addresses)
    requires Storable(addresses, Prev(accounts, acc.id), acc)
    ensures AddressesAgree(accounts[acc.id := acc], AddressesAfter(addresses, Prev(accounts, acc.id), acc))
  {
    var accounts', addresses' := accounts[acc.id := acc], AddressesAfter(addresses, Prev(accounts, acc.id), acc);
    forall a | a in addresses' ensures addresses'[a] in accounts' && a in Keys(accounts'[addresses'[a]]) {
    }
    forall id, a | id in accounts' && a in Keys(accounts'[id]) ensures a in addresses' && addresses'[a] == id {
      if id != acc.id {
        assert addresses[a] == id;
        if acc.id in accounts {
          OneOwner(accounts, addresses, id, acc.id, a);
          ErasedAreOld(accounts[acc.id], acc);
        }
      }
    }
  }

  lemma StoreVotes(accounts: Accounts, votes: set<Vote>, acc: Account)
    requires IdsAgree(accounts) && VotesAgree(accounts, votes)
    ensures VotesAgree(accounts[acc.id := acc], VotesAfter(votes, Prev(accounts, acc.id), acc))
  {
  }

  lemma RemoveNames(accounts: Accounts, names: map<string, AccountId>, acc: Account)
    requires NamesAgree(accounts, names) && Prev(accounts, acc.id) == Some(acc)
    ensures NamesAgree(accounts - {acc.id}, names - {acc.name})
  {
  }

  /** Removing an account keeps the address index exact if and only if the null key of another account is not
      erased with it. */
  lemma RemoveAddresses(accounts: Accounts, addresses: map<Address, AccountId>, acc: Account)
    requires AddressesAgree(accounts, addresses) && Prev(accounts, acc.id) == Some(acc)
    ensures AddressesAgree(accounts - {acc.id}, addresses - AllKeys(acc)) <==> NullKept(addresses, AllKeys(acc), acc.id)
  {
    var accounts', addresses' := accounts - {acc.id}, addresses - AllKeys(acc);
    if NullKept(addresses, AllKeys(acc), acc.id) {
      forall id, a | id in accounts' && a in Keys(accounts'[id]) ensures a in addresses' && addresses'[a] == id {
        OneOwner(accounts, addresses, id, acc.id, a);
      }
      assert AddressesAgree(accounts', addresses');
    } else {
      assert NULL_KEY in Keys(accounts'[addresses[NULL_KEY]]) && NULL_KEY !in addresses';
    }
  }

  /** An address belongs to one account only. */
  lemma OneOwner(accounts: Accounts, addresses: map<Address, AccountId>, id: AccountId, other: AccountId, a: Address)
    requires AddressesAgree(accounts, addresses) && id in accounts && other in accounts && id != other
    requires a in Keys(accounts[id])
    ensures a !in Keys(accounts[other]) && (a in AllKeys(accounts[other]) ==> a == NULL_KEY) && a in addresses && addresses[a] == id
  {
    var owner := addresses[a];
    assert a in Keys(accounts[other]) ==> owner == other;
  }

  lemma RemoveVotes(accounts: Accounts, votes: set<Vote>, acc: Account)
    requires IdsAgree(accounts) && VotesAgree(accounts, votes) && Prev(accounts, acc.id) == Some(acc)
    ensures VotesAgree(accounts - {acc.id}, if IsListed(acc) then votes - {VoteOf(acc)} else votes)
  {
  }

  /* ---------------------------------------------------------------- what always holds of the addresses */

  /** A lookup in a layer: what the layer does not hold is asked of the state below. */
  function Find(layer: map<Address, AccountId>, below: map<Address, AccountId>, a: Address): Option<AccountId> {
    if a in layer then Some(layer[a]) else if a in below then Some(below[a]) else None
  }

  /** Every address but that of the null key finds the account that has it. There may be other entries. */
  ghost predicate Covers(accounts: Accounts, layer: map<Address, AccountId>, below: map<Address, AccountId>) {
    forall id, a {:trigger id in accounts, Find(layer, below, a)} | id in accounts && a in Keys(accounts[id]) && a != NULL_KEY ::
      Find(layer, below, a) == Some(id)
  }

  /** No other account has one of the addresses, but for the null key. */
  predicate Unowned(accounts: Accounts, acc: Account) {
    forall id | id in accounts && id != acc.id :: Keys(accounts[id]) * Keys(acc) <= {NULL_KEY}
  }

  /** A store in a layer keeps this if and only if no other account has one of the addresses, whatever stale entries
      there are and whatever the erased entries of the layer uncover below. */
  lemma StoreCovers(accounts: Accounts, layer: map<Address, AccountId>, below: map<Address, AccountId>, acc: Account)
    requires Covers(accounts, layer, below)
    ensures Covers(accounts[acc.id := acc], AddressesAfter(layer, Prev(accounts, acc.id), acc), below) <==> Unowned(accounts, acc)
  {
    var accounts', layer' := accounts[acc.id := acc], AddressesAfter(layer, Prev(accounts, acc.id), acc);
    if Unowned(accounts, acc) {
      forall id, a | id in accounts' && a in Keys(accounts'[id]) && a != NULL_KEY ensures Find(layer', below, a) == Some(id) {
        if id != acc.id {
          assert Find(layer, below, a) == Some(id) && a !in Keys(acc);
          if acc.id in accounts {
            ErasedAreOld(accounts[acc.id], acc);
            assert a in Keys(accounts[acc.id]) ==> Find(layer, below, a) == Some(acc.id);
          }
        }
      }
    } else {
      var id :| id in accounts && id != acc.id && !(Keys(accounts[id]) * Keys(acc) <= {NULL_KEY});
      var a :| a in Keys(accounts[id]) * Keys(acc) && a != NULL_KEY;
      assert id in accounts' && Find(layer', below, a) == Some(acc.id);
    }
  }

  lemma RemoveCovers(accounts: Accounts, addresses: map<Address, AccountId>, acc: Account)
    requires Covers(accounts, addresses, map[]) && Prev(accounts, acc.id) == Some(acc)
    ensures Covers(accounts - {acc.id}, addresses - AllKeys(acc), map[])
  {
    var accounts', addresses' := accounts - {acc.id}, addresses - AllKeys(acc);
    forall id, a | id in accounts' && a in Keys(accounts'[id]) && a != NULL_KEY ensures Find(addresses', map[], a) == Some(id) {
      assert Find(addresses, map[], a) == Some(id);
      assert a in Keys(acc) ==> Find(addresses, map[], a) == Some(acc.id);
    }
  }

  lemma AgreeCovers(accounts: Accounts, addresses: map<Address, AccountId>)
    requires AddressesAgree(accounts, addresses)
    ensures Covers(accounts, addresses, map[])
  {
  }

  /** Keys that the index does not find, and keys the account has already, belong to no other account. */
  lemma FreeKeysUnowned(accounts: Accounts, layer: map<Address, AccountId>, below: map<Address, AccountId>, acc: Account, added: set<Address>)
    requires Covers(accounts, layer, below)
    requires Keys(acc) <= (if acc.id in accounts then Keys(accounts[acc.id]) else {}) + added + {NULL_KEY}
    requires forall a | a in added :: Find(layer, below, a).None?
    ensures Unowned(accounts, acc)
  {
    forall id | id in accounts && id != acc.id ensures Keys(accounts[id]) * Keys(acc) <= {NULL_KEY} {
      forall a | a in Keys(accounts[id]) * Keys(acc) ensures a == NULL_KEY {
        var found := Find(layer, below, a);
        assert a == NULL_KEY || found == Some(id);
      }
    }
  }

  /** A lookup in such an index answers as the operations assume: `extra` may be all its entries. */
  lemma IndexAnswers(r: Records, layer: map<Address, AccountId>, below: map<Address, AccountId>, key: Address)
    requires forall id, a | a != NULL_KEY && OwnsKey(r, id, a) :: Find(layer, below, a) == Some(id)
    ensures Indexed(r, layer.Keys + below.Keys, key) <==> Find(layer, below, key).Some?
  {
    if key != NULL_KEY && KeyTaken(r, key) {
      var k :| k in r && k.AccountKey? && OwnsKey(r, k.account, key);
      assert Find(layer, below, key) == Some(k.account);
    }
  }

  /* ---------------------------------------------------------------- key histories */

  /** No entry is later than `at`. */
  predicate UpTo(h: KeyHistory, at: nat) {
    h == [] || h[|h| - 1].0 <= at
  }

  /** No key of an account was set in the future, and none was set after the account was retracted. */
  predicate DatedAccount(acc: Account, now: Time, headNum: nat) {
    && UpTo(acc.activeKeys, now) && (acc.IsDelegate() ==> UpTo(acc.delegate.value.signingKeys, headNum))
    && forall i | 0 <= i < |acc.activeKeys| - 1 :: acc.activeKeys[i].1 != NULL_KEY
  }

  ghost predicate Dated(accounts: Accounts, now: Time, headNum: nat) {
    forall id | id in accounts :: DatedAccount(accounts[id], now, headNum)
  }

  /** A key set now joins the history, or replaces the one set at the same time. */
  lemma SetKeyNow(h: KeyHistory, at: nat, key: Address)
    requires UpTo(h, at)
    ensures UpTo(SetKey(h, at, key), at) && LatestKey(SetKey(h, at, key)) == key
    ensures KeysOf(SetKey(h, at, key)) <= KeysOf(h) + {key}
    ensures LatestKey(h) == key && h != [] ==> KeysOf(SetKey(h, at, key)) == KeysOf(h)
  {
    var h' := SetKey(h, at, key);
    forall a | a in KeysOf(h') ensures a in KeysOf(h) + {key} {
      var i :| 0 <= i < |h'| && h'[i].1 == a;
      if i < |h'| - 1 {
        assert h'[i] == h[i];
      }
    }
    if LatestKey(h) == key && h != [] {
      forall a | a in KeysOf(h) ensures a in KeysOf(h') {
        var i :| 0 <= i < |h| && h[i].1 == a;
        assert h'[i].1 == a;
      }
      assert key in KeysOf(h) by {
        assert h[|h| - 1].1 == key;
      }
    }
  }

  /** An update leaves nothing behind, and takes over no address but the new active key. */
  lemma UpdateKeys(ctx: Context, acc: Account, activeKey: Option<Address>, payRate: nat, keyFree: bool)
    requires DatedAccount(acc, ctx.now, ctx.headNum)
    requires ctx.UpdatedAccount(acc, activeKey, payRate, keyFree).Ok?
    ensures var acc' := ctx.UpdatedAccount(acc, activeKey, payRate, keyFree).value;
            && acc'.id == acc.id && acc'.name == acc.name && DatedAccount(acc', ctx.now, ctx.headNum)
            && NoStaleKeys(Some(acc), acc') && NULL_KEY !in ErasedKeys(acc, acc')
            && Keys(acc') <= Keys(acc) + (if activeKey.Some? && activeKey.value != NULL_KEY && keyFree then {activeKey.value} else {})
  {
    if activeKey.Some? {
      SetKeyNow(acc.activeKeys, ctx.now, activeKey.value);
    }
    var acc' := ctx.UpdatedAccount(acc, activeKey, payRate, keyFree).value;
    if !acc.IsDelegate() && acc'.IsDelegate() {
      assert acc'.ActiveKey() != NULL_KEY ==> acc'.ActiveKey() in KeysOf(acc'.activeKeys) by {
        if acc'.ActiveKey() != NULL_KEY {
          assert acc'.activeKeys[|acc'.activeKeys| - 1].1 == acc'.ActiveKey();
        }
      }
      assert KeysOf(acc'.delegate.value.signingKeys) <= {acc'.ActiveKey()};
    }
  }

  lemma SigningKeys(ctx: Context, acc: Account, key: Address)
    requires DatedAccount(acc, ctx.now, ctx.headNum) && acc.IsDelegate()
    ensures var acc' := ctx.WithSigningKey(acc, key);
            && DatedAccount(acc', ctx.now, ctx.headNum)
            && NoStaleKeys(Some(acc), acc') && Keys(acc') <= Keys(acc) + {key}
  {
    SetKeyNow(acc.delegate.value.signingKeys, ctx.headNum, key);
  }

  /** An update takes no address of another account, whenever the earlier keys were set. */
  lemma UpdateIsUnowned(accounts: Accounts, layer: map<Address, AccountId>, below: map<Address, AccountId>, ctx: Context, id: AccountId,
                        activeKey: Option<Address>, payRate: nat)
    requires Covers(accounts, layer, below) && IdsAgree(accounts) && id in accounts
    requires ctx.UpdatedAccount(accounts[id], activeKey, payRate, activeKey.Some? && Find(layer, below, activeKey.value).None?).Ok?
    ensures var acc' := ctx.UpdatedAccount(accounts[id], activeKey, payRate, activeKey.Some? && Find(layer, below, activeKey.value).None?).value;
            Unowned(accounts, acc') && acc'.id == id && acc'.name == accounts[id].name
  {
    var keyFree := activeKey.Some? && Find(layer, below, activeKey.value).None?;
    var acc, acc' := accounts[id], ctx.UpdatedAccount(accounts[id], activeKey, payRate, keyFree).value;
    if activeKey.Some? {
      SetKeyKeys(acc.activeKeys, ctx.now, activeKey.value);
    }
    assert acc'.ActiveKey() != NULL_KEY ==> acc'.ActiveKey() in KeysOf(acc'.activeKeys) by {
      if acc'.ActiveKey() != NULL_KEY {
        assert acc'.activeKeys[|acc'.activeKeys| - 1].1 == acc'.ActiveKey();
      }
    }
    FreeKeysUnowned(accounts, layer, below, acc', if keyFree then {activeKey.value} else {});
  }

  lemma UpdateIsStorable(accounts: Accounts, addresses: map<Address, AccountId>, ctx: Context, id: AccountId,
                         activeKey: Option<Address>, payRate: nat)
    requires AddressesAgree(accounts, addresses) && IdsAgree(accounts) && id in accounts
    requires DatedAccount(accounts[id], ctx.now, ctx.headNum)
    requires ctx.UpdatedAccount(accounts[id], activeKey, payRate, activeKey.Some? && activeKey.value !in addresses).Ok?
    ensures var acc' := ctx.UpdatedAccount(accounts[id], activeKey, payRate, activeKey.Some? && activeKey.value !in addresses).value;
            Storable(addresses, Some(accounts[id]), acc') && DatedAccount(acc', ctx.now, ctx.headNum)
  {
    var keyFree := activeKey.Some? && activeKey.value !in addresses;
    UpdateKeys(ctx, accounts[id], activeKey, payRate, keyFree);
    var acc' := ctx.UpdatedAccount(accounts[id], activeKey, payRate, keyFree).value;
    forall a | a in Keys(acc') && a in addresses ensures addresses[a] == id {
      assert a in Keys(accounts[id]);
    }
  }

  /** The checks on the account and the signatures of a new signing key. */
  predicate SigningAccepted(ctx: Context, acc: Account) {
    !acc.IsRetracted() && acc.IsDelegate() && (ctx.Signed(acc.SigningKey()) || ctx.AccountOrParentSigned(acc))
  }

  /** What one block does to a key history: nothing, one entry more, or another key in the latest entry. */
  predicate HistoryStep(h: KeyHistory, h': KeyHistory) {
    || h' == h
    || (h' != [] && h'[..|h'| - 1] == h)
    || (|h'| == |h| > 0 && h'[..|h| - 1] == h[..|h| - 1] && h'[|h| - 1].0 == h[|h| - 1].0)
  }

  predicate BlockStep(before: Account, after: Account) {
    && before.name == after.name && before.ownerKey == after.ownerKey
    && HistoryStep(before.activeKeys, after.activeKeys)
    && (before.IsDelegate() ==> after.IsDelegate() && HistoryStep(before.delegate.value.signingKeys, after.delegate.value.signingKeys))
  }

  lemma StepKeys(h: KeyHistory, h': KeyHistory)
    requires HistoryStep(h, h') && LatestKey(h) == LatestKey(h')
    ensures KeysOf(h) - {NULL_KEY} == KeysOf(h') - {NULL_KEY}
  {
    if |h'| == |h| {
      assert h' == h;
    } else {
      StepKeysAppended(h, h');
    }
  }

  lemma StepKeysAppended(h: KeyHistory, h': KeyHistory)
    requires h' != [] && h'[..|h'| - 1] == h && LatestKey(h) == LatestKey(h')
    ensures KeysOf(h) - {NULL_KEY} == KeysOf(h') - {NULL_KEY}
  {
    var n := |h|;
    assert h' == h + [h'[n]];
    forall a | a in KeysOf(h) ensures a in KeysOf(h') {
      var i :| 0 <= i < |h| && h[i].1 == a;
      assert h'[i] == h[i];
    }
    forall a | a in KeysOf(h') && a != NULL_KEY ensures a in KeysOf(h) {
      var i :| 0 <= i < |h'| && h'[i].1 == a;
      if i < n {
        assert h[i].1 == a;
      } else {
        assert h[n - 1].1 == a;
      }
    }
  }

  /** Storing the record of a block over that of its parent, or that of the parent back over it, leaves no
      address behind. */
  lemma BlockStepHasNoStaleKeys(before: Account, after: Account)
    requires BlockStep(before, after)
    ensures NoStaleKeys(Some(before), after) && NoStaleKeys(Some(after), before)
  {
    if before.ActiveKey() == after.ActiveKey() {
      StepKeys(before.activeKeys, after.activeKeys);
    }
    if before.IsDelegate() && before.SigningKey() == after.SigningKey() {
      StepKeys(before.delegate.value.signingKeys, after.delegate.value.signingKeys);
    }
  }

  /* ---------------------------------------------------------------- ranking by votes */

  /** More votes first; the lowest id wins ties. */
  predicate Before(v: Vote, w: Vote) {
    v.votes > w.votes || (v.votes == w.votes && v.id < w.id)
  }

  predicate IsFirst(v: Vote, s: set<Vote>) {
    v in s && forall w | w in s && w != v :: Before(v, w)
  }

  lemma {:induction false} FirstExists(s: set<Vote>) returns (v: Vote)
    requires s != {}
    ensures IsFirst(v, s)
    decreases |s|
  {
    var w :| w in s;
    if s - {w} == {} {
      v := w;
      assert forall x | x in s && x != w :: x in s - {w};
    } else {
      var u := FirstExists(s - {w});
      v := if Before(w, u) then w else u;
      forall x | x in s && x != v ensures Before(v, x) {
        assert x == w || x in s - {w};
      }
    }
  }

  /** `r` lists the votes of `s` in order. */
  ghost predicate Ranks(r: seq<Vote>, s: set<Vote>) {
    && (forall v :: v in r <==> v in s)
    && (forall i, j | 0 <= i < j < |r| :: Before(r[i], r[j]))
  }

  /** The listed votes come before all the others. */
  ghost predicate RanksAhead(r: seq<Vote>, all: set<Vote>, rest: set<Vote>) {
    && rest <= all && Ranks(r, all - rest)
    && (forall i, w | 0 <= i < |r| && w in rest :: Before(r[i], w))
  }

  lemma RankNext(r: seq<Vote>, all: set<Vote>, rest: set<Vote>, v: Vote)
    requires RanksAhead(r, all, rest) && IsFirst(v, rest)
    ensures RanksAhead(r + [v], all, rest - {v})
  {
  }

  /** A ranking of the first votes can be completed. */
  lemma {:induction false} CompleteRanking(r: seq<Vote>, all: set<Vote>, rest: set<Vote>) returns (full: seq<Vote>)
    requires RanksAhead(r, all, rest)
    ensures r <= full && Ranks(full, all) && |full| == |r| + |rest|
    decreases rest
  {
    if rest == {} {
      full := r;
      assert all - rest == all;
    } else {
      var v := FirstExists(rest);
      RankNext(r, all, rest, v);
      full := CompleteRanking(r + [v], all, rest - {v});
    }
  }

  /** The first delegates of a ranking are the true top: no repeats, all listed, by falling votes and rising ids, and
      nobody left out has more votes than one of them. */
  lemma TopIsTrue(accounts: Accounts, votes: set<Vote>, ranking: seq<Vote>, n: nat)
    requires IdsAgree(accounts) && VotesAgree(accounts, votes) && Ranks(ranking, votes) && n <= |ranking|
    ensures Distinct(seq(n, i requires 0 <= i < n => ranking[i].id))
    ensures forall i | 0 <= i < n :: ranking[i].id in accounts && IsListed(accounts[ranking[i].id]) && VoteOf(accounts[ranking[i].id]) == ranking[i]
    ensures forall i, j | 0 <= i < j < n ::
              ranking[i].votes > ranking[j].votes || (ranking[i].votes == ranking[j].votes && ranking[i].id < ranking[j].id)
    ensures forall id, i {:trigger accounts[id], ranking[i]} | id in accounts && IsListed(accounts[id]) && 0 <= i < n ::
              var votesFor := accounts[id].delegate.value.votesFor;
              || ranking[i].votes > votesFor || (ranking[i].votes == votesFor && ranking[i].id < id)
              || exists j | 0 <= j < n :: ranking[j].id == id
  {
    forall i, j | 0 <= i < j < n ensures ranking[i].id != ranking[j].id {
      assert ranking[i] in votes && ranking[j] in votes && Before(ranking[i], ranking[j]);
    }
    forall i | 0 <= i < n
      ensures ranking[i].id in accounts && IsListed(accounts[ranking[i].id]) && VoteOf(accounts[ranking[i].id]) == ranking[i]
    {
      assert ranking[i] in votes;
    }
    forall id, i | id in accounts && IsListed(accounts[id]) && 0 <= i < n
      ensures Before(ranking[i], VoteOf(accounts[id])) || exists j | 0 <= j < n :: ranking[j].id == id
    {
      var v := VoteOf(accounts[id]);
      assert v in ranking;
      var j :| 0 <= j < |ranking| && ranking[j] == v;
      assert j >= n ==> Before(ranking[i], ranking[j]);
    }
  }

  /** The votes above one: more votes, or as many and a lower id. */
  function Above(votes: set<Vote>, x: int, id: AccountId): set<Vote> {
    set w | w in votes && (w.votes > x || (w.votes == x && w.id < id))
  }

  /** Exactly `n` votes are above the one of the id. */
  ghost predicate HasRank(votes: set<Vote>, id: AccountId, n: nat) {
    exists x :: Vote(x, id) in votes && |Above(votes, x, id)| == n
  }

  /** The position in a ranking is the number of votes above. */
  lemma RankIsCount(ranking: seq<Vote>, votes: set<Vote>, k: nat)
    requires Ranks(ranking, votes) && k < |ranking|
    ensures |Above(votes, ranking[k].votes, ranking[k].id)| == k
  {
    var above := Above(votes, ranking[k].votes, ranking[k].id);
    var first := set i | 0 <= i < k :: ranking[i];
    forall i | 0 <= i < |ranking| ensures ranking[i] in above <==> i < k {
      assert ranking[i] in votes;
      if i < k {
        assert Before(ranking[i], ranking[k]);
      } else if i > k {
        assert Before(ranking[k], ranking[i]);
      }
    }
    forall w ensures w in above <==> w in first {
      assert w in above ==> w in ranking;
    }
    assert above == first;
    PrefixSize(ranking, k);
  }

  lemma {:induction false} PrefixSize(ranking: seq<Vote>, k: nat)
    requires k <= |ranking| && forall i, j | 0 <= i < j < |ranking| :: ranking[i] != ranking[j]
    ensures |set i | 0 <= i < k :: ranking[i]| == k
  {
    if k > 0 {
      PrefixSize(ranking, k - 1);
      var less := set i | 0 <= i < k - 1 :: ranking[i];
      assert (set i | 0 <= i < k :: ranking[i]) == less + {ranking[k - 1]};
      assert ranking[k - 1] !in less;
    }
  }

  lemma RankingSize(ranking: seq<Vote>, votes: set<Vote>)
    requires Ranks(ranking, votes)
    ensures |ranking| == |votes|
  {
    forall i, j | 0 <= i < j < |ranking| ensures ranking[i] != ranking[j] {
      assert Before(ranking[i], ranking[j]);
    }
    PrefixSize(ranking, |ranking|);
    var all := set i | 0 <= i < |ranking| :: ranking[i];
    forall v ensures v in all <==> v in votes {
      assert v in ranking <==> v in votes;
    }
    assert all == votes;
  }

  lemma KeysOfNext(h: KeyHistory, i: nat)
    requires i < |h|
    ensures KeysOf(h[..i + 1]) == KeysOf(h[..i]) + {h[i].1}
  {
    assert h[..i + 1] == h[..i] + [h[i]];
    forall a | a in KeysOf(h[..i]) + {h[i].1} ensures a in KeysOf(h[..i + 1]) {
      if a == h[i].1 {
        assert h[..i + 1][i].1 == a;
      } else {
        var j :| 0 <= j < i && h[..i][j].1 == a;
        assert h[..i + 1][j].1 == a;
      }
    }
  }

  /** The ids of at most `count` votes of the ranking from position `first` on. */
  ghost predicate IsPage(ids: seq<AccountId>, ranking: seq<Vote>, first: nat, count: nat) {
    && |ids| == (if |ranking| <= first then 0 else if |ranking| <= first + count then |ranking| - first else count)
    && forall i | 0 <= i < |ids| :: ids[i] == ranking[first + i].id
  }

  /** Walks the ordered votes from the first on. */
  method PageOf(votes: set<Vote>, first: nat, count: nat) returns (ids: seq<AccountId>)
    ensures exists ranking :: Ranks(ranking, votes) && IsPage(ids, ranking, first, count)
  {
    var rest := votes;
    var ranked: seq<Vote> := [];
    assert votes - rest == {};
    ids := [];
    while |ids| < count && rest != {}
      invariant RanksAhead(ranked, votes, rest)
      invariant |ids| == if |ranked| <= first then 0 else |ranked| - first
      invariant forall i | 0 <= i < |ids| :: ids[i] == ranked[first + i].id
      invariant |ids| <= count
      decreases rest
    {
      ghost var least := FirstExists(rest);
      assert IsFirst(least, rest);
      var v :| v in rest && IsFirst(v, rest);
      RankNext(ranked, votes, rest, v);
      if |ranked| >= first {
        ids := ids + [v.id];
      }
      ranked := ranked + [v];
      rest := rest - {v};
    }
    ghost var ranking := CompleteRanking(ranked, votes, rest);
    assert IsPage(ids, ranking, first, count);
  }

  class AccountDb {
    var accounts: Accounts
    var byName: map<string, AccountId>
    var byAddress: map<Address, AccountId>
    var byVotes: set<Vote>

    /** What no operation ever breaks. */
    ghost predicate Covered()
      reads this
    {
      && IdsAgree(accounts)
      && NamesAgree(accounts, byName)
      && Covers(accounts, byAddress, map[])
      && VotesAgree(accounts, byVotes)
    }

    /** The address index is exact as well. */
    ghost predicate Valid()
      reads this
    {
      Covered() && AddressesAgree(accounts, byAddress)
    }

    constructor ()
      ensures Valid() && accounts == map[] && byAddress == map[] && byName == map[]
    {
      accounts, byName, byAddress, byVotes := map[], map[], map[], {};
    }

    method EraseKeys(h: KeyHistory)
      modifies this`byAddress
      ensures byAddress == old(byAddress) - KeysOf(h)
    {
      for i := 0 to |h|
        invariant byAddress == old(byAddress) - KeysOf(h[..i])
      {
        KeysOfNext(h, i);
        byAddress := byAddress - {h[i].1};
      }
      assert h[..|h|] == h;
    }

    method InsertKeys(h: KeyHistory, id: AccountId)
      modifies this`byAddress
      ensures byAddress == old(byAddress) + Mapped(KeysOf(h) - {NULL_KEY}, id)
    {
      for i := 0 to |h|
        invariant byAddress == old(byAddress) + Mapped(KeysOf(h[..i]) - {NULL_KEY}, id)
      {
        KeysOfNext(h, i);
        MappedNext(old(byAddress), KeysOf(h[..i]), h[i].1, id);
        if h[i].1 != NULL_KEY {
          byAddress := byAddress[h[i].1 := id];
        }
      }
      assert h[..|h|] == h;
    }

    /** Stores an account under its id and brings every index up to date. */
    method Store(acc: Account)
      modifies this
      ensures accounts == old(accounts)[acc.id := acc]
      ensures byName == NamesAfter(old(byName), Prev(old(accounts), acc.id), acc)
      ensures byAddress == AddressesAfter(old(byAddress), Prev(old(accounts), acc.id), acc)
      ensures IdsAgree(old(accounts)) ==> byVotes == VotesAfter(old(byVotes), Prev(old(accounts), acc.id), acc)
    {
      var prev := Prev(accounts, acc.id);
      if prev.Some? {
        if prev.value.name != acc.name {
          byName := byName - {prev.value.name};
        }
        EraseOldKeys(prev.value, acc);
        if IsListed(prev.value) && (!IsListed(acc) || VoteOf(prev.value).votes != VoteOf(acc).votes) {
          byVotes := byVotes - {VoteOf(prev.value)};
        }
      }
      accounts := accounts[acc.id := acc];
      byName := byName[acc.name := acc.id];
      InsertNewKeys(acc);
      if IsListed(acc) {
        byVotes := byVotes + {VoteOf(acc)};
      }
    }

    method EraseOldKeys(prev: Account, acc: Account)
      modifies this`byAddress
      ensures byAddress == old(byAddress) - ErasedKeys(prev, acc)
    {
      if prev.ownerKey != acc.ownerKey {
        byAddress := byAddress - {prev.ownerKey};
      }
      if prev.ActiveKey() != acc.ActiveKey() {
        EraseKeys(prev.activeKeys);
      }
      if prev.IsDelegate() && (!acc.IsDelegate() || prev.SigningKey() != acc.SigningKey()) {
        EraseKeys(prev.delegate.value.signingKeys);
      }
    }

    method InsertNewKeys(acc: Account)
      modifies this`byAddress
      ensures byAddress == old(byAddress) + Mapped(Keys(acc), acc.id)
    {
      byAddress := byAddress[acc.ownerKey := acc.id];
      InsertKeys(acc.activeKeys, acc.id);
      if acc.IsDelegate() {
        InsertKeys(acc.delegate.value.signingKeys, acc.id);
      }
      InsertedInParts(old(byAddress), acc);
    }

    method EraseAllKeys(acc: Account)
      modifies this`byAddress
      ensures byAddress == old(byAddress) - AllKeys(acc)
    {
      byAddress := byAddress - {acc.ownerKey};
      EraseKeys(acc.activeKeys);
      if acc.IsDelegate() {
        EraseKeys(acc.delegate.value.signingKeys);
      }
    }

    /** Removes an account, if there is one, with all its index entries. The addresses stay exact if and only if
        the null key is not erased while another account owns it. */
    method Remove(id: AccountId)
      requires Covered()
      modifies this
      ensures Covered() && accounts == old(accounts) - {id}
      ensures old(Valid()) ==> (Valid() <==> id in old(accounts) ==> NullKept(old(byAddress), AllKeys(old(accounts)[id]), id))
    {
      if id in accounts {
        var prev := accounts[id];
        RemoveNames(accounts, byName, prev);
        RemoveCovers(accounts, byAddress, prev);
        if AddressesAgree(accounts, byAddress) {
          RemoveAddresses(accounts, byAddress, prev);
        }
        RemoveVotes(accounts, byVotes, prev);
        accounts := accounts - {id};
        byName := byName - {prev.name};
        EraseAllKeys(prev);
        if IsListed(prev) {
          byVotes := byVotes - {VoteOf(prev)};
        }
      }
    }

    /** A store keeps every address covered if and only if the name is free and no other account has one of the
        addresses, and keeps the index exact if and only if the addresses can be stored. */
    method StoreExact(acc: Account)
      requires Covered()
      modifies this
      ensures accounts == old(accounts)[acc.id := acc]
      ensures byName == NamesAfter(old(byName), Prev(old(accounts), acc.id), acc)
      ensures byAddress == AddressesAfter(old(byAddress), Prev(old(accounts), acc.id), acc)
      ensures Covered() <==> (acc.name in old(byName) ==> old(byName)[acc.name] == acc.id) && Unowned(old(accounts), acc)
      ensures old(Valid()) ==>
                (Valid() <==>
                 && (acc.name in old(byName) ==> old(byName)[acc.name] == acc.id)
                 && Storable(old(byAddress), Prev(old(accounts), acc.id), acc))
    {
      StoreNames(accounts, byName, acc);
      StoreCovers(accounts, byAddress, map[], acc);
      StoreVotes(accounts, byVotes, acc);
      if AddressesAgree(accounts, byAddress) {
        StoreAddresses(accounts, byAddress, acc);
      }
      Store(acc);
      if AddressesAgree(accounts, byAddress) {
        AgreeCovers(accounts, byAddress);
      }
    }

    /** Registers an account whose name and keys are not in the index. */
    method Register(ctx: Context, id: AccountId, name: string, ownerKey: Address, activeKey: Address, payRate: nat, nameOk: bool)
      returns (ok: bool)
      requires Covered() && id !in accounts
      modifies this
      ensures Covered() && (old(Valid()) ==> Valid())
      ensures ok <==> nameOk && name !in old(byName) && ctx.now != 0 && ownerKey !in old(byAddress) && activeKey !in old(byAddress)
      ensures accounts == if ok then old(accounts)[id := NewAccount(id, name, ownerKey, activeKey, payRate, ctx.now, ctx.headNum)] else old(accounts)
      ensures old(Dated(accounts, ctx.now, ctx.headNum)) ==> Dated(accounts, ctx.now, ctx.headNum)
    {
      ok := nameOk && name !in byName && ownerKey !in byAddress && activeKey !in byAddress && ctx.now != 0;
      if ok {
        var acc := NewAccount(id, name, ownerKey, activeKey, payRate, ctx.now, ctx.headNum);
        assert Keys(acc) <= {ownerKey, activeKey};
        FreeKeysUnowned(accounts, byAddress, map[], acc, {ownerKey, activeKey});
        StoreExact(acc);
      }
    }

    /** Updates keys or pay rate of an account. As long as no key was set in the future the index stays exact;
        in general, if and only if the new record can be stored. */
    method Update(ctx: Context, id: AccountId, activeKey: Option<Address>, payRate: nat) returns (ok: bool)
      requires Covered()
      modifies this
      ensures Covered() && (!ok ==> accounts == old(accounts) && byAddress == old(byAddress))
      ensures ok ==> id in old(accounts) && accounts.Keys == old(accounts).Keys && accounts == old(accounts)[id := accounts[id]]
      ensures ok && old(Valid()) ==> (Valid() <==> Storable(old(byAddress), Some(old(accounts)[id]), accounts[id]))
      ensures old(Dated(accounts, ctx.now, ctx.headNum)) ==> Dated(accounts, ctx.now, ctx.headNum) && (old(Valid()) ==> Valid())
    {
      if id !in accounts {
        return false;
      }
      var keyFree := activeKey.Some? && activeKey.value !in byAddress;
      var updated := ctx.UpdatedAccount(accounts[id], activeKey, payRate, keyFree);
      if updated.Err? {
        return false;
      }
      UpdateIsUnowned(accounts, byAddress, map[], ctx, id, activeKey, payRate);
      if DatedAccount(accounts[id], ctx.now, ctx.headNum) {
        UpdateKeys(ctx, accounts[id], activeKey, payRate, keyFree);
        if AddressesAgree(accounts, byAddress) {
          UpdateIsStorable(accounts, byAddress, ctx, id, activeKey, payRate);
        }
      }
      StoreExact(updated.value);
      ok := true;
    }

    /** Gives a delegate a new signing key that the index does not find. Unless a key was set in the future the index
        stays exact if and only if the null key is not erased while another account owns it. */
    method SetSigningKey(ctx: Context, id: AccountId, key: Address) returns (ok: bool)
      requires Covered()
      modifies this
      ensures Covered()
      ensures ok <==> id in old(accounts) && SigningAccepted(ctx, old(accounts)[id]) && key !in old(byAddress)
      ensures !ok ==> accounts == old(accounts) && byAddress == old(byAddress)
      ensures ok ==> accounts == old(accounts)[id := ctx.WithSigningKey(old(accounts)[id], key)] && byName == old(byName)
      ensures ok ==> byAddress == AddressesAfter(old(byAddress), Some(old(accounts)[id]), accounts[id])
      ensures ok && old(Valid()) ==> (Valid() <==> Storable(old(byAddress), Some(old(accounts)[id]), accounts[id]))
      ensures ok && old(Dated(accounts, ctx.now, ctx.headNum)) ==> Dated(accounts, ctx.now, ctx.headNum)
      ensures ok && old(Dated(accounts, ctx.now, ctx.headNum)) && old(Valid()) ==>
                (Valid() <==> NullKept(old(byAddress), ErasedKeys(old(accounts)[id], accounts[id]), id))
    {
      if id !in accounts || !SigningAccepted(ctx, accounts[id]) || key in byAddress {
        return false;
      }
      SetKeyKeys(accounts[id].delegate.value.signingKeys, ctx.headNum, key);
      FreeKeysUnowned(accounts, byAddress, map[], ctx.WithSigningKey(accounts[id], key), {key});
      if DatedAccount(accounts[id], ctx.now, ctx.headNum) {
        SigningKeys(ctx, accounts[id], key);
      }
      StoreExact(ctx.WithSigningKey(accounts[id], key));
      ok := true;
    }

    /** Stores the account as it was before a block over what the block made of it. When the block added or replaced
        the latest keys only, an exact index stays exact if and only if the earlier keys are still free and the null key
        of another account is not erased. */
    method TakeBack(before: Account)
      requires Covered() && before.id in accounts
      modifies this
      ensures accounts == old(accounts)[before.id := before]
      ensures Covered() <==> (before.name in old(byName) ==> old(byName)[before.name] == before.id) && Unowned(old(accounts), before)
      ensures old(Valid()) && BlockStep(before, old(accounts)[before.id]) ==>
                (Valid() <==> KeysFree(old(byAddress), before) &&
                              NullKept(old(byAddress), ErasedKeys(old(accounts)[before.id], before), before.id))
    {
      if BlockStep(before, accounts[before.id]) {
        BlockStepHasNoStaleKeys(before, accounts[before.id]);
      }
      StoreExact(before);
    }

    /** The delegates from position `first` on, by votes: as many as asked for, and exactly `first + i` others have more
        votes than the i-th, or as many and a lower id. */
    method GetDelegatesByVote(first: nat, count: nat) returns (ids: seq<AccountId>)
      ensures |ids| == if |byVotes| <= first then 0 else if |byVotes| <= first + count then |byVotes| - first else count
      ensures forall i | 0 <= i < |ids| :: HasRank(byVotes, ids[i], first + i)
    {
      ids := PageOf(byVotes, first, count);
      ghost var ranking: seq<Vote> :| Ranks(ranking, byVotes) && IsPage(ids, ranking, first, count);
      RankingSize(ranking, byVotes);
      forall i | 0 <= i < |ids| ensures HasRank(byVotes, ids[i], first + i) {
        RankIsCount(ranking, byVotes, first + i);
        assert ranking[first + i] in byVotes;
        assert Vote(ranking[first + i].votes, ids[i]) == ranking[first + i];
      }
    }
  }

  /** No check of signatures, at block `n`. */
  function ContextAt(n: nat): Context {
    Context(10 * n, n, 0, {}, true, {}, (s: set<AccountId>) => 1)
  }

  lemma KeysOfOne(at: nat, key: Address)
    ensures KeysOf([(at, key)]) == {key}
  {
    assert [(at, key)][0].1 == key;
  }

  lemma KeysOfMore(h: KeyHistory, at: nat, key: Address)
    ensures KeysOf(h + [(at, key)]) == KeysOf(h) + {key}
  {
    var h' := h + [(at, key)];
    assert h'[|h|].1 == key && forall i | 0 <= i < |h| :: h'[i] == h[i];
  }

  /** The delegate registered in block one, with its signing keys so far. */
  ghost predicate IsDelegateOne(acc: Account, signing: KeyHistory) {
    && acc.id == 1 && acc.name == "a" && acc.ownerKey == 5 && acc.activeKeys == [(10, 5)]
    && acc.IsDelegate() && acc.delegate.value.signingKeys == signing
  }

  lemma FirstKeys(acc: Account, signing: KeyHistory)
    requires IsDelegateOne(acc, signing)
    ensures Keys(acc) == {5} + (KeysOf(signing) - {NULL_KEY}) && SigningKeysOf(acc) == KeysOf(signing) && !acc.IsRetracted()
  {
    KeysOfOne(10, 5);
  }

  /** Block two takes the signing key of the delegate away. */
  method KeylessDelegate() returns (db: AccountDb)
    ensures fresh(db) && db.Valid() && db.accounts.Keys == {1} && IsDelegateOne(db.accounts[1], [(1, 5), (2, NULL_KEY)])
    ensures Dated(db.accounts, 20, 2)
  {
    db := new AccountDb();
    var ok := db.Register(ContextAt(1), 1, "a", 5, 5, 0, true);
    KeysOfOne(1, 5);
    FirstKeys(db.accounts[1], [(1, 5)]);
    assert NULL_KEY !in db.byAddress;
    ok := db.SetSigningKey(ContextAt(2), 1, NULL_KEY);
  }

  /** In block three a second account has the null key as its owner key. */
  method WithNullOwner() returns (db: AccountDb)
    ensures fresh(db) && db.Valid() && db.accounts.Keys == {1, 2} && IsDelegateOne(db.accounts[1], [(1, 5), (2, NULL_KEY)])
    ensures db.accounts[2].ownerKey == NULL_KEY && db.byAddress.Keys == {5, 6, NULL_KEY} && db.byName.Keys == {"a", "b"}
  {
    db := KeylessDelegate();
    FirstSigning();
    FirstKeys(db.accounts[1], [(1, 5), (2, NULL_KEY)]);
    var ok := db.Register(ContextAt(3), 2, "b", NULL_KEY, 6, 101, true);
    KeysOfOne(30, 6);
    assert Keys(db.accounts[2]) == {NULL_KEY, 6};
    TwoAccounts(db.accounts, db.byAddress, db.byName);
  }

  lemma TwoAccounts(accounts: Accounts, addresses: map<Address, AccountId>, names: map<string, AccountId>)
    requires AddressesAgree(accounts, addresses) && NamesAgree(accounts, names) && accounts.Keys == {1, 2}
    requires Keys(accounts[1]) == {5} && Keys(accounts[2]) == {NULL_KEY, 6} && accounts[1].name == "a" && accounts[2].name == "b"
    ensures addresses.Keys == {5, 6, NULL_KEY} && names.Keys == {"a", "b"}
  {
    assert 5 in Keys(accounts[1]) && 6 in Keys(accounts[2]) && NULL_KEY in Keys(accounts[2]);
    assert 1 in accounts && 2 in accounts;
  }

  lemma FirstSigning()
    ensures KeysOf([(1, 5), (2, NULL_KEY)]) == {5, NULL_KEY}
  {
    KeysOfOne(1, 5);
    KeysOfMore([(1, 5)], 2, NULL_KEY);
    assert [(1, 5)] + [(2, NULL_KEY)] == [(1, 5), (2, NULL_KEY)];
  }

  /** What a new signing key in block four does to the delegate and to its addresses. */
  lemma NullErased(addresses: map<Address, AccountId>, before: Account)
    requires IsDelegateOne(before, [(1, 5), (2, NULL_KEY)])
    ensures SigningAccepted(ContextAt(4), before)
    ensures var addresses' := AddressesAfter(addresses, Some(before), ContextAt(4).WithSigningKey(before, 7));
            NULL_KEY !in addresses' && addresses'.Keys <= addresses.Keys + {5, 7}
  {
    var after := ContextAt(4).WithSigningKey(before, 7);
    FirstSigning();
    KeysOfMore([(1, 5), (2, NULL_KEY)], 4, 7);
    assert [(1, 5), (2, NULL_KEY)] + [(4, 7)] == [(1, 5), (2, NULL_KEY), (4, 7)];
    FirstKeys(before, [(1, 5), (2, NULL_KEY)]);
    FirstKeys(after, [(1, 5), (2, NULL_KEY), (4, 7)]);
  }

  /** In block four the delegate gets a new signing key. */
  method SignAgain(db: AccountDb)
    requires db.Covered() && 1 in db.accounts && IsDelegateOne(db.accounts[1], [(1, 5), (2, NULL_KEY)]) && 7 !in db.byAddress
    modifies db
    ensures db.Covered() && db.byName == old(db.byName) && db.accounts.Keys == old(db.accounts).Keys
    ensures forall id | id in db.accounts && id != 1 :: db.accounts[id] == old(db.accounts)[id]
    ensures NULL_KEY !in db.byAddress && db.byAddress.Keys <= old(db.byAddress).Keys + {5, 7}
  {
    NullErased(db.byAddress, db.accounts[1]);
    var ok := db.SetSigningKey(ContextAt(4), 1, 7);
  }

  /** The entry of an account whose owner key is the null key can be lost: another account, which has the null key among
      its earlier signing keys, gets a new one. */
  method NullOwnerIsLost() returns (db: AccountDb)
    ensures fresh(db) && db.Covered() && db.accounts.Keys == {1, 2} && db.accounts[2].ownerKey == NULL_KEY
    ensures NULL_KEY !in db.byAddress && 8 !in db.byAddress && "c" !in db.byName && !db.Valid()
  {
    db := WithNullOwner();
    SignAgain(db);
    OwnerNotFound(db.accounts, db.byAddress, 2);
  }

  lemma OwnerNotFound(accounts: Accounts, addresses: map<Address, AccountId>, id: AccountId)
    requires id in accounts && accounts[id].ownerKey !in addresses
    ensures !AddressesAgree(accounts, addresses)
  {
    MissingEntry(accounts, addresses, id, accounts[id].ownerKey);
  }

  /** In block five the null key is then accepted as the owner key of a third account, so two accounts have it. */
  method NullOwnerTwice() returns (db: AccountDb)
    ensures db.Covered() && db.accounts.Keys == {1, 2, 3}
    ensures db.accounts[2].ownerKey == db.accounts[3].ownerKey == NULL_KEY
  {
    db := NullOwnerIsLost();
    var ok := db.Register(ContextAt(5), 3, "c", NULL_KEY, 8, 101, true);
  }
}
