/** The supply check of a layer: it looks only at what the layer touches, and decides whether the books of
    the whole state are still balanced. */
module Supplies {
  import opened Prelude
  import opened Sums
  import opened Records
  import opened Ledger
  import opened Layers
  import opened Operations
  import opened Effects
  import opened Transactions
  import opened Evaluation
  import opened Genesis

  /** A record is of the kind of its key, and an asset is stored under its own id. */
  predicate Fits(k: Key, rec: Record) {
    match k
    case BalanceKey(_) => rec.BalanceRecord?
    case AccountKey(_) => rec.AccountRecord?
    case AssetKey(id) => rec.AssetRecord? && rec.asset.id == id
    case SlateKey(_) => rec.SlateRecord?
    case PacketKey(_) => rec.PacketRecord?
    case RewardKey => rec.RewardRecord?
    case ReferenceKey => rec.ReferenceRecord?
    case _ => rec.MessageRecord?
  }

  ghost predicate AllFit(r: Records) {
    forall k | k in r :: Fits(k, r[k])
  }

  /** The shares a record holds, by asset. */
  function Shares(rec: Record): map<AssetId, int> {
    match rec
    case BalanceRecord(b) => map[b.condition.asset := b.amount]
    case AccountRecord(acc) => if acc.delegate.Some? then map[BASE_ASSET := acc.delegate.value.payBalance] else map[]
    case AssetRecord(asset) => Add(map[asset.id := asset.collectedFees], BASE_ASSET, asset.currentCollateral)
    case PacketRecord(p) => map[p.asset := LeftAmount(p.shares)]
    case RewardRecord(fees) => fees
    case _ => map[]
  }

  lemma SharesAreWorth(rec: Record, a: AssetId)
    ensures At(Shares(rec), a) == Worth(rec, a)
  {
  }

  function Plus(m: map<AssetId, int>, n: map<AssetId, int>): map<AssetId, int> {
    map a | a in m.Keys + n.Keys :: At(m, a) + At(n, a)
  }

  function Minus(m: map<AssetId, int>, n: map<AssetId, int>): map<AssetId, int> {
    map a | a in m.Keys + n.Keys :: At(m, a) - At(n, a)
  }

  function PrevShares(r: Records, k: Key): map<AssetId, int> {
    if k in r then Shares(r[k]) else map[]
  }

  lemma HoldingsErase(r: Records, k: Key, a: AssetId)
    ensures Holdings(r - {k}, a) == Holdings(r, a) - WorthAt(r, k, a)
  {
    assert WorthMap(r - {k}, a) == WorthMap(r, a) - {k};
    TotalRemove(WorthMap(r, a), k);
  }

  /** `deltas` is how much more `now` holds than `r`. */
  ghost predicate IsDelta(r: Records, now: Records, deltas: map<AssetId, int>) {
    forall a: AssetId {:trigger At(deltas, a)} {:trigger Holdings(now, a)} :: Holdings(now, a) == Holdings(r, a) + At(deltas, a)
  }

  lemma DeltaStore(r: Records, now: Records, deltas: map<AssetId, int>, k: Key, rec: Record)
    requires IsDelta(r, now, deltas)
    ensures IsDelta(r, now[k := rec], Plus(Minus(deltas, PrevShares(now, k)), Shares(rec)))
  {
    forall a ensures Holdings(now[k := rec], a) == Holdings(r, a) + At(Plus(Minus(deltas, PrevShares(now, k)), Shares(rec)), a) {
      HoldingsStore(now, k, rec, a);
      SharesAreWorth(rec, a);
      if k in now {
        SharesAreWorth(now[k], a);
      }
    }
  }

  lemma DeltaErase(r: Records, now: Records, deltas: map<AssetId, int>, k: Key)
    requires IsDelta(r, now, deltas)
    ensures IsDelta(r, now - {k}, Minus(deltas, PrevShares(now, k)))
  {
    forall a ensures Holdings(now - {k}, a) == Holdings(r, a) + At(Minus(deltas, PrevShares(now, k)), a) {
      HoldingsErase(now, k, a);
      if k in now {
        SharesAreWorth(now[k], a);
      }
    }
  }

  lemma StoreNext(r: Records, stored: Records, todo: set<Key>, k: Key)
    requires k in todo && todo <= stored.Keys
    ensures (r + (stored - todo))[k := stored[k]] == r + (stored - (todo - {k}))
    ensures PrevShares(r + (stored - todo), k) == PrevShares(r, k)
  {
  }

  lemma AssetIsListed(k: Key, rec: Record, deltas: map<AssetId, int>)
    requires Fits(k, rec) && k.AssetKey?
    ensures k.asset in Minus(deltas, Shares(rec)) && k.asset in Plus(deltas, Shares(rec))
  {
  }

  /** What the stored records of a layer change. */
  method StoredDeltas(stored: Records, r: Records) returns (deltas: map<AssetId, int>)
    requires AllFit(stored) && AllFit(r)
    ensures IsDelta(r, r + stored, deltas)
    ensures forall id | AssetKey(id) in stored :: id in deltas
  {
    deltas := map[];
    var todo := stored.Keys;
    ghost var now := r;
    while todo != {}
      invariant todo <= stored.Keys && now == r + (stored - todo) && IsDelta(r, now, deltas)
      invariant forall id | AssetKey(id) in stored && AssetKey(id) !in todo :: id in deltas
    {
      var k :| k in todo;
      DeltaStore(r, now, deltas, k, stored[k]);
      StoreNext(r, stored, todo, k);
      if k.AssetKey? {
        AssetIsListed(k, stored[k], Minus(deltas, PrevShares(r, k)));
      }
      deltas := Plus(Minus(deltas, PrevShares(r, k)), Shares(stored[k]));
      now := r + (stored - (todo - {k}));
      todo := todo - {k};
    }
    assert stored - todo == stored;
  }

  /** What the removed keys of a layer change on top. */
  method RemovedDeltas(removed: set<Key>, r: Records, stored: Records, deltas: map<AssetId, int>) returns (deltas': map<AssetId, int>)
    requires AllFit(r) && stored.Keys !! removed && IsDelta(r, r + stored, deltas)
    ensures IsDelta(r, (r + stored) - removed, deltas') && deltas.Keys <= deltas'.Keys
    ensures forall id | AssetKey(id) in removed && AssetKey(id) in r :: id in deltas'
  {
    deltas' := deltas;
    var todo := removed;
    ghost var now := r + stored;
    while todo != {}
      invariant todo <= removed && now == (r + stored) - (removed - todo) && IsDelta(r, now, deltas') && deltas.Keys <= deltas'.Keys
      invariant forall id | AssetKey(id) in removed - todo && AssetKey(id) in r :: id in deltas'
    {
      var k :| k in todo;
      DeltaErase(r, now, deltas', k);
      assert PrevShares(now, k) == PrevShares(r, k);
      if k.AssetKey? && k in r {
        AssetIsListed(k, r[k], deltas');
      }
      deltas' := Minus(deltas', PrevShares(r, k));
      now := now - {k};
      todo := todo - {k};
    }
    assert removed - todo == removed;
  }

  /** The change of every supply is the change of the shares held. */
  ghost predicate SupplyFollows(r: Records, now: Records) {
    forall a: AssetId {:trigger Holdings(now, a)} :: Supply(now, a) - Supply(r, a) == Holdings(now, a) - Holdings(r, a)
  }

  /** The check passes exactly when, for every asset, the reported supply has changed as the shares have. */
  method CheckSupplies(layer: Layer, r: Records) returns (ok: bool)
    requires layer.stored.Keys !! layer.removed && AllFit(layer.stored) && AllFit(r)
    ensures ok <==> SupplyFollows(r, Applied(layer, r))
  {
    var stored := StoredDeltas(layer.stored, r);
    var deltas := RemovedDeltas(layer.removed, r, layer.stored, stored);
    assert Applied(layer, r) == (r + layer.stored) - layer.removed;
    ok := CompareSupplies(r, Applied(layer, r), deltas);
    ListedIsEnough(layer, r, deltas);
  }

  /** Compares every listed delta with the reported change. */
  method CompareSupplies(r: Records, now: Records, deltas: map<AssetId, int>) returns (ok: bool)
    ensures ok <==> forall a | a in deltas :: Supply(now, a) - Supply(r, a) == deltas[a]
  {
    var todo := deltas.Keys;
    while todo != {}
      invariant todo <= deltas.Keys
      invariant forall a | a in deltas && a !in todo :: Supply(now, a) - Supply(r, a) == deltas[a]
    {
      ghost var witness' := SomeMember(todo);
      var a :| a in todo;
      if Supply(now, a) - Supply(r, a) != deltas[a] {
        return false;
      }
      todo := todo - {a};
    }
    ok := true;
  }

  /** An asset that is not listed has changed neither in supply nor in shares held. */
  lemma ListedIsEnough(layer: Layer, r: Records, deltas: map<AssetId, int>)
    requires IsDelta(r, Applied(layer, r), deltas)
    requires forall id | AssetKey(id) in layer.stored || (AssetKey(id) in layer.removed && AssetKey(id) in r) :: id in deltas
    ensures SupplyFollows(r, Applied(layer, r)) <==>
            forall a | a in deltas :: Supply(Applied(layer, r), a) - Supply(r, a) == deltas[a]
  {
    var now := Applied(layer, r);
    forall a ensures Holdings(now, a) - Holdings(r, a) == At(deltas, a)
      ensures a !in deltas ==> Supply(now, a) == Supply(r, a)
    {
      assert Holdings(now, a) == Holdings(r, a) + At(deltas, a);
      assert a !in deltas ==> AssetKey(a) !in layer.stored;
    }
  }

  /** Between two states of the ledger the check passes exactly when nothing was paid twice in between. */
  lemma CheckFindsDoublePayment(r: Records, now: Records)
    requires Balanced(r, map[]) && Balanced(now, map[])
    ensures SupplyFollows(r, now) <==> forall a :: PaidTwice(now, a) == PaidTwice(r, a)
  {
    forall a ensures Holdings(r, a) == Supply(r, a) + PaidTwice(r, a) && Holdings(now, a) == Supply(now, a) + PaidTwice(now, a) {
      assert Holdings(r, a) + At(map[], a) == Supply(r, a) + PaidTwice(r, a);
      assert Holdings(now, a) + At(map[], a) == Supply(now, a) + PaidTwice(now, a);
    }
    if a: AssetId :| PaidTwice(now, a) != PaidTwice(r, a) {
      assert Holdings(now, a) - Holdings(r, a) != Supply(now, a) - Supply(r, a);
    }
  }

  /** On top of balanced books the check decides whether the books of any new state balance. */
  lemma CheckDecidesBalance(r: Records, now: Records)
    requires Balanced(r, map[]) && forall a :: PaidTwice(now, a) == PaidTwice(r, a)
    ensures SupplyFollows(r, now) <==> Balanced(now, map[])
  {
    forall a ensures Holdings(r, a) == Supply(r, a) + PaidTwice(r, a) {
      assert Holdings(r, a) + At(map[], a) == Supply(r, a) + PaidTwice(r, a);
    }
    if SupplyFollows(r, now) {
      forall a ensures Holdings(now, a) + At(map[], a) == Supply(now, a) + PaidTwice(now, a) {
      }
    } else {
      var a :| Supply(now, a) - Supply(r, a) != Holdings(now, a) - Holdings(r, a);
      assert Holdings(now, a) != Supply(now, a) + PaidTwice(now, a);
    }
  }

  /** The reward pool is not undone with its block: balanced books stay balanced under the newer pool exactly
      when it holds the same shares. */
  lemma PoolLeftBehind(r: Records, fees: map<AssetId, int>)
    requires Balanced(r, map[]) && RewardKey in r && r[RewardKey].RewardRecord?
    ensures Balanced(r[RewardKey := RewardRecord(fees)], map[]) <==> forall a :: At(fees, a) == At(Pool(r), a)
  {
    var now := r[RewardKey := RewardRecord(fees)];
    forall a ensures Holdings(now, a) == Supply(now, a) + PaidTwice(now, a) - At(Pool(r), a) + At(fees, a) {
      HoldingsStore(r, RewardKey, RewardRecord(fees), a);
      assert Holdings(r, a) + At(map[], a) == Supply(r, a) + PaidTwice(r, a);
    }
    if a: AssetId :| At(fees, a) != At(Pool(r), a) {
      assert Holdings(now, a) != Supply(now, a) + PaidTwice(now, a);
    }
  }

  /** A claim of base shares in the name of the unclaimed marker: it is accepted exactly when the claim is, and the check
      then passes exactly when there was nothing to pay. */
  method ClaimForMarker(r: Records, ctx: Context, lastAccountId: AccountId, lastAssetId: AssetId, id: PacketId)
    returns (error: Outcome, now: Records)
    requires Sound(r, map[], map[]) && IdsUpTo(r, lastAccountId)
    requires GetPacket(r, id).Some? && GetPacket(r, id).value.asset == BASE_ASSET
    ensures error.None? <==> ctx.ClaimPays(r, id, UNCLAIMED).Some?
    ensures error.None? ==>
              && Sound(now, map[], map[])
              && PaidTwice(now, BASE_ASSET) == PaidTwice(r, BASE_ASSET) + ctx.ClaimPays(r, id, UNCLAIMED).value
              && (SupplyFollows(r, now) <==> ctx.ClaimPays(r, id, UNCLAIMED).value == 0)
  {
    assert RecordOk(r, PacketKey(id));
    SoundIsKeyed(r);
    LoneClaim(ctx, Books(r, lastAccountId, lastAssetId), id, UNCLAIMED, 0);
    var evaluation := new TransactionEvaluation(ctx, r, lastAccountId, lastAssetId);
    var ops := [ClaimOp(id, UNCLAIMED)];
    error := evaluation.Evaluate(ops, 0);
    now := evaluation.records;
    if error.None? {
      CheckFindsDoublePayment(r, now);
    }
  }

  /** One key for the account, its packet and the claim. */
  function OwnPacket(key: Address, amount: nat): Packet {
    Packet(1, BASE_ASSET, amount, 1, key, None, [Share(amount, UNCLAIMED)])
  }

  /** The first delegate of a genesis state has put all its shares into a packet. */
  function PacketState(key: Address, amount: nat, time: Time): Records {
    var r := GenesisRecords([key], [(key, amount)], time);
    var id := Plain(key, BASE_ASSET);
    r[BalanceKey(id) := BalanceRecord(EmptyBalance(id))][PacketKey(1) := PacketRecord(OwnPacket(key, amount))]
  }

  lemma PacketStateIsSound(key: Address, amount: nat, time: Time)
    ensures Sound(PacketState(key, amount, time), map[], map[]) && IdsUpTo(PacketState(key, amount, time), 1)
    ensures GetAccount(PacketState(key, amount, time), 1) == Some(FirstDelegate(1, key, time))
    ensures PaidTwice(PacketState(key, amount, time), BASE_ASSET) == 0
  {
    var r, id := GenesisRecords([key], [(key, amount)], time), Plain(key, BASE_ASSET);
    GenesisIs([key], [(key, amount)], time);
    GenesisIsSound([key], [(key, amount)], time);
    assert OwnerTotal([(key, amount)], key) == amount by {
      assert [(key, amount)][..0] == [];
    }
    PutBalance(r, map[], map[], EmptyBalance(id), map[]);
    var spent, fees := r[BalanceKey(id) := BalanceRecord(EmptyBalance(id))], Add(map[], BASE_ASSET, amount);
    assert RecordsOk(r) && PacketKey(1) !in r by {
      NoPackets([key], [(key, amount)], time);
    }
    LeftInOne(amount);
    PutPacket(spent, fees, map[], OwnPacket(key, amount));
    SameTotals(PacketState(key, amount, time), Add(fees, BASE_ASSET, 0 - amount), map[], map[]);
    assert GetAccount(r, 1).Some?;
  }

  lemma LeftInOne(amount: nat)
    ensures LeftAmount([Share(amount, UNCLAIMED)]) == amount
  {
    assert [Share(amount, UNCLAIMED)][..0] == [];
  }

  lemma NoPackets(keys: seq<Address>, balances: seq<(Address, nat)>, time: Time)
    ensures forall id :: PacketKey(id) !in GenesisRecords(keys, balances, time)
  {
    var issued := Issued(TotalOf(balances));
    DelegatesAre(issued, keys, time);
    BalancesAre(WithDelegates(issued, keys, time), balances, time);
  }

  /** A run: the claim of the marker is paid, the share stays in the packet, and the check finds it. */
  method PacketIsPaidTwice(key: Address, amount: nat, time: Time, slateId: set<AccountId> -> SlateId) returns (before: Records, after: Records)
    requires amount > 0
    ensures Sound(before, map[], map[]) && Sound(after, map[], map[])
    ensures PaidTwice(before, BASE_ASSET) == 0 && PaidTwice(after, BASE_ASSET) == amount && !SupplyFollows(before, after)
  {
    before := PacketState(key, amount, time);
    PacketStateIsSound(key, amount, time);
    var ctx := Context(time, 0, 0, {key}, false, {}, slateId);
    assert ctx.ClaimPays(before, 1, UNCLAIMED) == Some(amount);
    var error;
    error, after := ClaimForMarker(before, ctx, 1, 0, 1);
  }
}
