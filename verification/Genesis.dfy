/** The state a chain starts from: the first delegates, the balances of the base asset, and an empty reward pool. */
module Genesis {
  import opened Prelude
  import opened Sums
  import opened Records
  import opened Ledger
  import opened Packets
  import opened Operations

  const BASE := Asset(BASE_ASSET, "BASE", God, Authority(1, {}), {}, {}, {}, "base", PRECISION, MAX_SHARES, 0, 0, 0, 0, 0)

  const EMPTY_GENESIS: Records := map[AssetKey(BASE_ASSET) := AssetRecord(BASE), RewardKey := RewardRecord(map[BASE_ASSET := 0])]

  lemma EmptyGenesisIsSound()
    ensures Sound(EMPTY_GENESIS, map[], map[])
  {
    EmptyGenesisRecords();
    EmptyGenesisTotals();
  }

  lemma EmptyGenesisRecords()
    ensures RecordsOk(EMPTY_GENESIS) && (forall d :: !IsDelegate(EMPTY_GENESIS, d)) && KeysUnique(EMPTY_GENESIS)
  {
    forall k | k in EMPTY_GENESIS ensures RecordOk(EMPTY_GENESIS, k) {
      assert k == AssetKey(BASE_ASSET) || k == RewardKey;
    }
  }

  lemma EmptyGenesisTotals()
    ensures Balanced(EMPTY_GENESIS, map[]) && AllCharged(EMPTY_GENESIS)
  {
    var r := EMPTY_GENESIS;
    forall a ensures Holdings(r, a) == 0 {
      forall k | k in r ensures Worth(r[k], a) == 0 {
        assert k == AssetKey(BASE_ASSET) || k == RewardKey;
      }
      TotalZero(WorthMap(r, a));
    }
    forall duty: Duty ensures Charged(r, duty) == 0 {
      forall k | k in r ensures Charge(r[k], duty) == 0 {
        assert k == AssetKey(BASE_ASSET) || k == RewardKey;
      }
      TotalZero(ChargeMap(r, duty));
    }
  }

  /** A first delegate: one key serves as owner, active and signing key, and the pay rate is full. */
  function FirstDelegate(id: AccountId, key: Address, time: Time): Account {
    NewAccount(id, "", key, key, 100, time, 0)
  }

  /** The delegates get the ids from one on. */
  function WithDelegates(r: Records, keys: seq<Address>, time: Time): Records {
    if keys == [] then r
    else
      var n := |keys|;
      WithDelegates(r, keys[..n - 1], time)[AccountKey(n) := AccountRecord(FirstDelegate(n, keys[n - 1], time))]
  }

  /** Balances of one owner are added up. */
  function WithBalances(r: Records, balances: seq<(Address, nat)>, time: Time): Records {
    if balances == [] then r
    else
      var owner, amount := balances[|balances| - 1].0, balances[|balances| - 1].1;
      var before := WithBalances(r, balances[..|balances| - 1], time);
      before[BalanceKey(Plain(owner, BASE_ASSET)) := BalanceRecord(Increased(before, owner, amount, time))]
  }

  function Increased(r: Records, owner: Address, amount: nat, time: Time): Balance {
    var id := Plain(owner, BASE_ASSET);
    var b := if GetBalance(r, id).Some? then GetBalance(r, id).value else EmptyBalance(id);
    b.(amount := b.amount + amount, lastUpdate := time)
  }

  function TotalOf(balances: seq<(Address, nat)>): nat {
    if balances == [] then 0 else TotalOf(balances[..|balances| - 1]) + balances[|balances| - 1].1
  }

  function OwnerTotal(balances: seq<(Address, nat)>, owner: Address): nat {
    if balances == [] then 0
    else OwnerTotal(balances[..|balances| - 1], owner) + (if balances[|balances| - 1].0 == owner then balances[|balances| - 1].1 else 0)
  }

  /** The records of the genesis state. */
  function GenesisRecords(keys: seq<Address>, balances: seq<(Address, nat)>, time: Time): Records {
    WithBalances(WithDelegates(Issued(TotalOf(balances)), keys, time), balances, time)
  }

  function Issued(supply: nat): Records {
    EMPTY_GENESIS[AssetKey(BASE_ASSET) := AssetRecord(BASE.(currentSupply := supply))]
  }

  /** No key but the null key is given to two delegates. */
  predicate KeysDiffer(keys: seq<Address>) {
    forall i, j | 0 <= i < j < |keys| && keys[i] != NULL_KEY :: keys[i] != keys[j]
  }

  lemma {:induction false} DelegatesAre(r: Records, keys: seq<Address>, time: Time)
    requires forall k | k in r :: !k.AccountKey?
    ensures forall id :: GetAccount(WithDelegates(r, keys, time), id) ==
                         if 1 <= id <= |keys| then Some(FirstDelegate(id, keys[id - 1], time)) else None
    ensures forall k: Key | !k.AccountKey? :: k in WithDelegates(r, keys, time) <==> k in r
    ensures forall k: Key | !k.AccountKey? && k in r :: WithDelegates(r, keys, time)[k] == r[k]
    ensures forall k | k in WithDelegates(r, keys, time) && k.AccountKey? :: 1 <= k.account <= |keys|
  {
    if keys != [] {
      DelegatesAre(r, keys[..|keys| - 1], time);
      forall id ensures GetAccount(WithDelegates(r, keys, time), id) ==
                        if 1 <= id <= |keys| then Some(FirstDelegate(id, keys[id - 1], time)) else None
      {
        assert id != |keys| ==> GetAccount(WithDelegates(r, keys, time), id) == GetAccount(WithDelegates(r, keys[..|keys| - 1], time), id);
      }
    }
  }

  lemma DelegateKeys(id: AccountId, key: Address, time: Time)
    ensures Keys(FirstDelegate(id, key, time)) == {key}
  {
    assert KeysOf([(time, key)]) == {key} by {
      assert [(time, key)][0].1 in KeysOf([(time, key)]);
    }
    assert KeysOf([(0, key)]) == {key} by {
      assert [(0, key)][0].1 in KeysOf([(0, key)]);
    }
  }

  lemma {:induction false} DelegatesAreSound(r: Records, fees: map<AssetId, int>, keys: seq<Address>, time: Time)
    requires Sound(r, fees, map[]) && KeysDiffer(keys) && forall k | k in r :: !k.AccountKey?
    ensures Sound(WithDelegates(r, keys, time), fees, map[])
  {
    if keys != [] {
      var n, rest := |keys|, keys[..|keys| - 1];
      var before, acc := WithDelegates(r, rest, time), FirstDelegate(n, keys[n - 1], time);
      DelegatesAreSound(r, fees, rest, time);
      DelegatesAre(r, rest, time);
      DelegateKeys(n, keys[n - 1], time);
      var key := keys[n - 1];
      forall id ensures OwnsKey(before, id, key) ==> key == NULL_KEY {
        if 1 <= id < n {
          DelegateKeys(id, rest[id - 1], time);
          assert keys[id - 1] == key ==> key == NULL_KEY;
        }
      }
      PutAccount(before, fees, map[], acc, 0);
      SameTotals(WithDelegates(r, keys, time), Add(fees, BASE_ASSET, 0), fees, map[]);
    }
  }

  lemma {:induction false} BalancesAreSound(r: Records, balances: seq<(Address, nat)>, time: Time, supply: int)
    requires Sound(r, map[BASE_ASSET := supply], map[])
    ensures Sound(WithBalances(r, balances, time), map[BASE_ASSET := supply - TotalOf(balances)], map[])
  {
    if balances != [] {
      var rest, owner, amount := balances[..|balances| - 1], balances[|balances| - 1].0, balances[|balances| - 1].1;
      var before := WithBalances(r, rest, time);
      BalancesAreSound(r, rest, time, supply);
      assert BalanceKey(Plain(owner, BASE_ASSET)) in before ==> RecordOk(before, BalanceKey(Plain(owner, BASE_ASSET)));
      var b, left := Increased(before, owner, amount, time), map[BASE_ASSET := supply - TotalOf(rest)];
      PutBalance(before, left, map[], b, map[]);
      SameTotals(WithBalances(r, balances, time), Add(left, BASE_ASSET, AmountOf(before, b.condition) - b.amount),
                 map[BASE_ASSET := supply - TotalOf(balances)], map[]);
    }
  }

  lemma {:induction false} BalancesAre(r: Records, balances: seq<(Address, nat)>, time: Time)
    requires forall k | k in r :: !k.BalanceKey?
    ensures forall o {:trigger OwnerTotal(balances, o)} :: AmountOf(WithBalances(r, balances, time), Plain(o, BASE_ASSET)) == OwnerTotal(balances, o)
    ensures forall k: Key | !k.BalanceKey? :: k in WithBalances(r, balances, time) <==> k in r
    ensures forall k: Key | !k.BalanceKey? && k in r :: WithBalances(r, balances, time)[k] == r[k]
  {
    if balances != [] {
      BalancesAre(r, balances[..|balances| - 1], time);
    }
  }

  /** What the genesis state holds: the delegates, the total of every owner and the supply. */
  lemma GenesisIs(keys: seq<Address>, balances: seq<(Address, nat)>, time: Time)
    ensures var r := GenesisRecords(keys, balances, time);
            && (forall id {:trigger GetAccount(r, id)} ::
                  GetAccount(r, id) == if 1 <= id <= |keys| then Some(FirstDelegate(id, keys[id - 1], time)) else None)
            && (forall o {:trigger OwnerTotal(balances, o)} :: AmountOf(r, Plain(o, BASE_ASSET)) == OwnerTotal(balances, o))
            && Supply(r, BASE_ASSET) == TotalOf(balances) && IdsUpTo(r, |keys|) && ReferenceOf(r) == Reference(0, 0, map[])
  {
    DelegatesAre(Issued(TotalOf(balances)), keys, time);
    var before := WithDelegates(Issued(TotalOf(balances)), keys, time);
    BalancesAre(before, balances, time);
    forall id ensures GetAccount(GenesisRecords(keys, balances, time), id) == GetAccount(before, id) {
      assert AccountKey(id) in before ==> GenesisRecords(keys, balances, time)[AccountKey(id)] == before[AccountKey(id)];
    }
  }

  /** The genesis state is sound exactly when no two delegates share a key. */
  lemma GenesisIsSound(keys: seq<Address>, balances: seq<(Address, nat)>, time: Time)
    ensures Sound(GenesisRecords(keys, balances, time), map[], map[]) <==> KeysDiffer(keys)
  {
    var total := TotalOf(balances);
    if KeysDiffer(keys) {
      EmptyGenesisIsSound();
      PutAsset(EMPTY_GENESIS, map[], map[], BASE, BASE.(currentSupply := total));
      SameTotals(Issued(total), Add(Add(map[], BASE_ASSET, total), BASE_ASSET, 0), map[BASE_ASSET := total], map[]);
      DelegatesAreSound(Issued(total), map[BASE_ASSET := total], keys, time);
      BalancesAreSound(WithDelegates(Issued(total), keys, time), balances, time, total);
      SameTotals(GenesisRecords(keys, balances, time), map[BASE_ASSET := 0], map[], map[]);
    } else {
      SharedKey(keys, balances, time);
    }
  }

  lemma SharedKey(keys: seq<Address>, balances: seq<(Address, nat)>, time: Time)
    requires !KeysDiffer(keys)
    ensures !KeysUnique(GenesisRecords(keys, balances, time))
  {
    var i, j :| 0 <= i < j < |keys| && keys[i] != NULL_KEY && keys[i] == keys[j];
    var r := GenesisRecords(keys, balances, time);
    GenesisIs(keys, balances, time);
    DelegateKeys(i + 1, keys[i], time);
    DelegateKeys(j + 1, keys[j], time);
    assert GetAccount(r, i + 1).Some? && GetAccount(r, j + 1).Some?;
    assert OwnsKey(r, i + 1, keys[i]) && OwnsKey(r, j + 1, keys[i]);
  }
}
