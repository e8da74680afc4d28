/** What whole transactions do: what they keep, what transfers move, and that registrations last. */
module Transactions {
  import opened Prelude
  import opened Records
  import opened Ledger
  import opened Operations
  import opened Effects

  /* ---------------------------------------------------------------- the operations of a transaction */

  lemma KeepsBoth(a: Records, b: Records, c: Records)
    requires Keeps(a, b) && Keeps(b, c)
    ensures Keeps(a, c)
  {
    forall d, e ensures Counter(c, d, e) == Counter(a, d, e) {
      assert Counter(c, d, e) == Counter(b, d, e);
    }
  }

  /** From any point on, the operations keep accounts and production counters. */
  lemma {:induction false} RunKeeps(ctx: Context, s: Working, ops: seq<Operation>, i: nat)
    requires Keyed(s.records) && IdsUpTo(s.records, s.lastAccountId) && Run(ctx, s, ops).Some? && i <= |ops|
    ensures Run(ctx, s, ops[..i]).Some? && IdsUpTo(Run(ctx, s, ops).value.records, Run(ctx, s, ops).value.lastAccountId)
    ensures Keeps(Run(ctx, s, ops[..i]).value.records, Run(ctx, s, ops).value.records)
    ensures Run(ctx, s, ops[..i]).value.lastAccountId <= Run(ctx, s, ops).value.lastAccountId
    decreases |ops|
  {
    if ops == [] {
      assert ops[..i] == ops;
      SameKeeps(s.records);
    } else {
      var n := |ops| - 1;
      var before := Run(ctx, s, ops[..n]).value;
      RunKeeps(ctx, s, ops[..n], 0);
      StepKeeps(ctx, before, ops[n]);
      StepIds(ctx, before, ops[n]);
      StepLast(ctx, before, ops[n]);
      if i == |ops| {
        assert ops[..i] == ops;
        SameKeeps(Step(ctx, before, ops[n]).records);
      } else {
        RunKeeps(ctx, s, ops[..n], i);
        assert ops[..n][..i] == ops[..i];
        KeepsBoth(Run(ctx, s, ops[..i]).value.records, before.records, Step(ctx, before, ops[n]).records);
      }
    }
  }

  lemma SameKeeps(r: Records)
    requires Keyed(r)
    ensures Keeps(r, r)
  {
  }

  lemma StepLast(ctx: Context, s: Working, op: Operation)
    requires Accepts(ctx, s, op)
    ensures Step(ctx, s, op).lastAccountId == s.lastAccountId + if op.RegisterOp? then 1 else 0
  {
  }

  /** No operation lowers what was paid twice, and without claims of the unclaimed marker none changes it. */
  lemma {:induction false} RunReference(ctx: Context, s: Working, ops: seq<Operation>)
    requires Keyed(s.records) && IdsUpTo(s.records, s.lastAccountId) && Run(ctx, s, ops).Some?
    ensures NoLess(ReferenceOf(s.records), ReferenceOf(Run(ctx, s, ops).value.records))
    ensures (forall op | op in ops :: RealClaimant(op)) ==> ReferenceOf(Run(ctx, s, ops).value.records) == ReferenceOf(s.records)
  {
    if ops != [] {
      var n := |ops| - 1;
      var before := Run(ctx, s, ops[..n]).value;
      RunReference(ctx, s, ops[..n]);
      RunKeeps(ctx, s, ops[..n], 0);
      StepKeeps(ctx, before, ops[n]);
      assert forall op | op in ops[..n] :: op in ops;
      assert ops[n] in ops;
      ReferenceGrows(ctx, before.records, ops[n]);
    }
  }

  lemma ReferenceGrows(ctx: Context, r: Records, op: Operation)
    ensures NoLess(ReferenceOf(r), ctx.ReferenceAfter(r, op, ReferenceOf(r)))
    ensures RealClaimant(op) ==> ctx.ReferenceAfter(r, op, ReferenceOf(r)) == ReferenceOf(r)
  {
  }

  /* ---------------------------------------------------------------- the end of a transaction */

  lemma CollectedIs(r: Records, fees: map<AssetId, int>)
    requires Keyed(r)
    ensures var r' := Collected(r, fees);
            && Keyed(r') && (forall k: Key | !k.AssetKey? :: (k in r' <==> k in r) && (k in r ==> r'[k] == r[k]))
            && (forall a {:trigger GetAsset(r', a)} :: GetAsset(r', a) ==
                  if GetAsset(r, a).None? then None
                  else Some(GetAsset(r, a).value.(collectedFees := GetAsset(r, a).value.collectedFees + At(fees, a))))
  {
    var r' := Collected(r, fees);
    forall k | k in r' ensures KeyedAt(r', k) {
      assert KeyedAt(r, k);
    }
  }

  function CountedAccount(acc: Account, amount: int): Account {
    if acc.IsDelegate() then WithVotes(acc, amount) else acc
  }

  lemma CountedIs(r: Records, deltas: map<AccountId, int>)
    requires Keyed(r)
    ensures var r' := Counted(r, deltas);
            && Keyed(r') && (forall k: Key | !k.AccountKey? :: (k in r' <==> k in r) && (k in r ==> r'[k] == r[k]))
            && (forall id {:trigger GetAccount(r', id)} :: GetAccount(r', id) ==
                  if GetAccount(r, id).None? then None else Some(CountedAccount(GetAccount(r, id).value, At(deltas, id))))
  {
    var r' := Counted(r, deltas);
    forall k | k in r' ensures KeyedAt(r', k) {
      assert KeyedAt(r, k);
    }
  }

  /** The account at the end of a transaction: only reputation and votes have moved. */
  function SettledAccount(w: Working, baseFees: int, id: AccountId, acc: Account): Account {
    acc.(rp := acc.rp + (if w.rpAccount == Some(id) then baseFees else 0),
         delegate := if acc.delegate.None? then None
                     else Some(acc.delegate.value.(votesFor := acc.delegate.value.votesFor + At(w.deltas, id))))
  }

  /** At the end of a transaction each asset collects its part of the running total, delegates gain the corrections of
      their votes and one account reputation; nothing else changes. */
  lemma SettledIs(w: Working, baseFees: int)
    requires Keyed(w.records)
    ensures var r := Settled(w, baseFees);
            && (forall k: Key | !k.AssetKey? && !k.AccountKey? :: (k in r <==> k in w.records) && (k in r ==> r[k] == w.records[k]))
            && (forall a {:trigger GetAsset(r, a)} :: GetAsset(r, a) ==
                  if GetAsset(w.records, a).None? then None
                  else Some(GetAsset(w.records, a).value.(collectedFees := GetAsset(w.records, a).value.collectedFees + At(w.fees, a))))
            && (forall id {:trigger GetAccount(r, id)} :: GetAccount(r, id) ==
                  if GetAccount(w.records, id).None? then None else Some(SettledAccount(w, baseFees, id, GetAccount(w.records, id).value)))
  {
    var r, collected := Settled(w, baseFees), Collected(w.records, w.fees);
    CollectedIs(w.records, w.fees);
    CountedIs(collected, w.deltas);
    forall a ensures GetAsset(r, a) == GetAsset(collected, a) {
    }
    forall id ensures GetAccount(collected, id) == GetAccount(w.records, id) {
    }
  }

  lemma SettledKeeps(w: Working, baseFees: int)
    requires Keyed(w.records)
    ensures Keeps(w.records, Settled(w, baseFees)) && ReferenceOf(Settled(w, baseFees)) == ReferenceOf(w.records)
    ensures Settled(w, baseFees).Keys == w.records.Keys
  {
    var r := Settled(w, baseFees);
    SettledIs(w, baseFees);
    forall k | k in r ensures KeyedAt(r, k) {
      assert KeyedAt(w.records, k);
      if k.AccountKey? {
        assert GetAccount(r, k.account) == Some(SettledAccount(w, baseFees, k.account, GetAccount(w.records, k.account).value));
      } else if k.AssetKey? {
        assert GetAsset(r, k.asset).Some?;
      }
    }
    forall d, e ensures Counter(r, d, e) == Counter(w.records, d, e) {
      assert AccountKey(d) in r ==> KeyedAt(r, AccountKey(d)) && KeyedAt(w.records, AccountKey(d));
      assert GetAccount(r, d) ==
             if GetAccount(w.records, d).None? then None else Some(SettledAccount(w, baseFees, d, GetAccount(w.records, d).value));
    }
  }

  /* ---------------------------------------------------------------- whole transactions */

  /** An accepted transaction keeps accounts and production counters, and pays nothing twice without a claim of the
      unclaimed marker. */
  lemma EvaluatedKeeps(ctx: Context, b: Books, ops: seq<Operation>, baseFees: int)
    requires Keyed(b.records) && IdsUpTo(b.records, b.lastAccountId) && Evaluated(ctx, b, ops, baseFees).Some?
    ensures var after := Evaluated(ctx, b, ops, baseFees).value;
            && Keeps(b.records, after.records) && IdsUpTo(after.records, after.lastAccountId)
            && NoLess(ReferenceOf(b.records), ReferenceOf(after.records))
            && ((forall op | op in ops :: RealClaimant(op)) ==> ReferenceOf(after.records) == ReferenceOf(b.records))
  {
    var w := Run(ctx, Fresh(b), ops).value;
    RunKeeps(ctx, Fresh(b), ops, 0);
    assert ops[..0] == [];
    RunReference(ctx, Fresh(b), ops);
    SettledKeeps(w, baseFees);
    KeepsBoth(b.records, w.records, Settled(w, baseFees));
  }

  /** The account that an operation registers is there after all operations. */
  lemma RegisteredInRun(ctx: Context, s: Working, ops: seq<Operation>, i: nat) returns (id: AccountId)
    requires Keyed(s.records) && IdsUpTo(s.records, s.lastAccountId) && Run(ctx, s, ops).Some? && i < |ops| && ops[i].RegisterOp?
    ensures var w := Run(ctx, s, ops).value;
            && s.lastAccountId < id <= w.lastAccountId && GetAccount(w.records, id).Some?
            && GetAccount(w.records, id).value.name == ops[i].name && GetAccount(w.records, id).value.ownerKey == ops[i].ownerKey
    decreases |ops|
  {
    var n, op := |ops| - 1, ops[i];
    RunKeeps(ctx, s, ops, n);
    RunKeeps(ctx, s, ops[..n], 0);
    assert ops[..n][..0] == [];
    var before, after := Run(ctx, s, ops[..n]).value, Run(ctx, s, ops).value;
    StepLast(ctx, before, ops[n]);
    if i == n {
      RegisterDoes(ctx, before, op.name, op.ownerKey, op.activeKey, op.payRate);
      id := before.lastAccountId + 1;
    } else {
      id := RegisteredInRun(ctx, s, ops[..n], i);
      assert GetAccount(before.records, id).Some? && GetAccount(after.records, id).Some?;
    }
  }

  /** The account that an operation registers is there at the end, under a new id, with its name and owner key. */
  lemma RegistrationLasts(ctx: Context, b: Books, ops: seq<Operation>, baseFees: int, i: nat) returns (id: AccountId)
    requires Keyed(b.records) && IdsUpTo(b.records, b.lastAccountId) && Evaluated(ctx, b, ops, baseFees).Some?
    requires i < |ops| && ops[i].RegisterOp?
    ensures var after := Evaluated(ctx, b, ops, baseFees).value;
            && b.lastAccountId < id <= after.lastAccountId && GetAccount(after.records, id).Some?
            && GetAccount(after.records, id).value.name == ops[i].name && GetAccount(after.records, id).value.ownerKey == ops[i].ownerKey
  {
    var w := Run(ctx, Fresh(b), ops).value;
    id := RegisteredInRun(ctx, Fresh(b), ops, i);
    RunKeeps(ctx, Fresh(b), ops, 0);
    SettledKeeps(w, baseFees);
    assert GetAccount(w.records, id).Some?;
  }

  /* ---------------------------------------------------------------- transfers */

  /** A deposit, or a withdrawal of an asset that is not market-issued. */
  predicate IsTransfer(r: Records, op: Operation) {
    op.DepositOp? || (op.WithdrawOp? && (GetAsset(r, op.id.asset).Some? ==> !GetAsset(r, op.id.asset).value.issuer.Market?))
  }

  predicate AllTransfers(r: Records, ops: seq<Operation>) {
    forall i | 0 <= i < |ops| :: IsTransfer(r, ops[i])
  }

  /** What an operation adds to a balance. */
  function MovesTo(op: Operation, c: Condition): int {
    if op.DepositOp? && op.condition == c then op.amount else if op.WithdrawOp? && op.id == c then -op.amount else 0
  }

  /** What an operation adds to the running total of an asset. */
  function FlowOf(op: Operation, a: AssetId): int {
    if op.DepositOp? && op.condition.asset == a then -op.amount else if op.WithdrawOp? && op.id.asset == a then op.amount else 0
  }

  function MovedTo(ops: seq<Operation>, c: Condition): int {
    if ops == [] then 0 else MovedTo(ops[..|ops| - 1], c) + MovesTo(ops[|ops| - 1], c)
  }

  function Flow(ops: seq<Operation>, a: AssetId): int {
    if ops == [] then 0 else Flow(ops[..|ops| - 1], a) + FlowOf(ops[|ops| - 1], a)
  }

  /** Assets and accounts are the same. */
  ghost predicate SameRest(before: Records, after: Records) {
    && (forall a {:trigger GetAsset(after, a)} :: GetAsset(after, a) == GetAsset(before, a))
    && (forall k: Key {:trigger k in after} | k.AssetKey? || k.AccountKey? :: k in after <==> k in before)
  }

  lemma TransferStep(ctx: Context, s: Working, op: Operation)
    requires Keyed(s.records) && Accepts(ctx, s, op) && IsTransfer(s.records, op)
    ensures var s' := Step(ctx, s, op);
            && (forall c :: AmountOf(s'.records, c) == AmountOf(s.records, c) + MovesTo(op, c))
            && (forall a :: At(s'.fees, a) == At(s.fees, a) + FlowOf(op, a))
            && SameRest(s.records, s'.records) && s'.rpAccount == s.rpAccount
  {
    if op.DepositOp? {
      DepositDoes(ctx, s, op.amount, op.condition);
      var s' := AfterDeposit(ctx, s, op.amount, op.condition);
      forall c | c != op.condition ensures AmountOf(s'.records, c) == AmountOf(s.records, c) {
      }
    } else {
      WithdrawDoes(ctx, s, op.id, op.amount);
      var s' := AfterWithdraw(ctx, s, op.id, op.amount);
      forall c | c != op.id ensures AmountOf(s'.records, c) == AmountOf(s.records, c) {
      }
      var asset := GetAsset(s.records, op.id.asset).value;
      assert asset.(collectedFees := asset.collectedFees - 0) == asset;
    }
  }

  lemma {:induction false} TransfersRun(ctx: Context, s: Working, ops: seq<Operation>)
    requires Keyed(s.records) && IdsUpTo(s.records, s.lastAccountId) && Run(ctx, s, ops).Some? && AllTransfers(s.records, ops)
    ensures var w := Run(ctx, s, ops).value;
            && (forall c {:trigger MovedTo(ops, c)} :: AmountOf(w.records, c) == AmountOf(s.records, c) + MovedTo(ops, c))
            && (forall a {:trigger Flow(ops, a)} :: At(w.fees, a) == At(s.fees, a) + Flow(ops, a))
            && SameRest(s.records, w.records) && w.rpAccount == s.rpAccount
  {
    if ops != [] {
      var n := |ops| - 1;
      var before := Run(ctx, s, ops[..n]).value;
      TransfersRun(ctx, s, ops[..n]);
      RunKeeps(ctx, s, ops[..n], 0);
      assert IsTransfer(s.records, ops[n]) && IsTransfer(before.records, ops[n]);
      TransferStep(ctx, before, ops[n]);
      var w := Run(ctx, s, ops).value;
      forall c ensures AmountOf(w.records, c) == AmountOf(s.records, c) + MovedTo(ops, c) {
        assert AmountOf(before.records, c) == AmountOf(s.records, c) + MovedTo(ops[..n], c);
      }
      forall a ensures At(w.fees, a) == At(s.fees, a) + Flow(ops, a) {
        assert At(before.fees, a) == At(s.fees, a) + Flow(ops[..n], a);
      }
    }
  }

  /** Each balance has changed by its deposits less its withdrawals, and each asset only in its collected fees, by what was
      withdrawn and not deposited. */
  ghost predicate MovedBy(before: Records, after: Records, ops: seq<Operation>) {
    && (forall c {:trigger MovedTo(ops, c)} :: AmountOf(after, c) == AmountOf(before, c) + MovedTo(ops, c))
    && (forall a {:trigger Flow(ops, a)} :: CollectedFees(after, a) == CollectedFees(before, a) + Flow(ops, a))
    && (forall a {:trigger GetAsset(after, a)} :: GetAsset(after, a) ==
          if GetAsset(before, a).None? then None
          else Some(GetAsset(before, a).value.(collectedFees := GetAsset(before, a).value.collectedFees + Flow(ops, a))))
  }

  /** An accepted transaction of deposits and withdrawals does exactly this. */
  lemma TransfersMove(ctx: Context, b: Books, ops: seq<Operation>, baseFees: int)
    requires Keyed(b.records) && IdsUpTo(b.records, b.lastAccountId) && AllTransfers(b.records, ops)
    requires Evaluated(ctx, b, ops, baseFees).Some?
    ensures MovedBy(b.records, Evaluated(ctx, b, ops, baseFees).value.records, ops)
  {
    TransfersRun(ctx, Fresh(b), ops);
    RunKeeps(ctx, Fresh(b), ops, 0);
    SettledTransfers(Run(ctx, Fresh(b), ops).value, baseFees, b.records, ops);
  }

  lemma SettledTransfers(w: Working, baseFees: int, before: Records, ops: seq<Operation>)
    requires Keyed(w.records) && CanSettle(w) && SameRest(before, w.records)
    requires forall c {:trigger MovedTo(ops, c)} :: AmountOf(w.records, c) == AmountOf(before, c) + MovedTo(ops, c)
    requires forall a {:trigger Flow(ops, a)} :: At(w.fees, a) == At(map[], a) + Flow(ops, a)
    ensures MovedBy(before, Settled(w, baseFees), ops)
  {
    var r := Settled(w, baseFees);
    SettledBalances(w, baseFees);
    SettledAssets(w, baseFees);
    forall c ensures AmountOf(r, c) == AmountOf(before, c) + MovedTo(ops, c) {
    }
    forall a ensures GetAsset(w.records, a) == GetAsset(before, a) && At(w.fees, a) == Flow(ops, a) {
    }
  }

  lemma SettledBalances(w: Working, baseFees: int)
    requires Keyed(w.records)
    ensures forall c {:trigger AmountOf(w.records, c)} {:trigger AmountOf(Settled(w, baseFees), c)} ::
              AmountOf(Settled(w, baseFees), c) == AmountOf(w.records, c)
  {
    SettledIs(w, baseFees);
    forall c ensures AmountOf(Settled(w, baseFees), c) == AmountOf(w.records, c) {
      assert BalanceKey(c) in Settled(w, baseFees) <==> BalanceKey(c) in w.records;
    }
  }

  lemma SettledAssets(w: Working, baseFees: int)
    requires Keyed(w.records) && CanSettle(w)
    ensures forall a {:trigger GetAsset(Settled(w, baseFees), a)} {:trigger CollectedFees(Settled(w, baseFees), a)} ::
              GetAsset(Settled(w, baseFees), a) ==
              if GetAsset(w.records, a).None? then None
              else Some(GetAsset(w.records, a).value.(collectedFees := GetAsset(w.records, a).value.collectedFees + At(w.fees, a)))
    ensures forall a {:trigger At(w.fees, a)} | GetAsset(w.records, a).None? :: At(w.fees, a) == 0
  {
    SettledIs(w, baseFees);
    forall a | GetAsset(w.records, a).None? ensures At(w.fees, a) == 0 {
      assert AssetKey(a) in w.records ==> KeyedAt(w.records, AssetKey(a));
      assert a in w.fees ==> FeeOk(w.records, w.fees, w.minFees, a);
    }
  }

  /** The plainest transfer, of base shares from one owner to another: when it is accepted. */
  lemma TransferIsAccepted(ctx: Context, b: Books, from: Address, to: Address, taken: int, given: int, baseFees: int)
    requires RecordsOk(b.records) && GetAsset(b.records, BASE_ASSET).Some? && GetAsset(b.records, BASE_ASSET).value.withdrawalFee == 0
    ensures Evaluated(ctx, b, [WithdrawOp(Plain(from, BASE_ASSET), taken), DepositOp(given, Plain(to, BASE_ASSET))], baseFees).Some? <==>
            && BalanceKey(Plain(from, BASE_ASSET)) in b.records && ctx.Signed(from)
            && 0 < given <= taken <= AmountOf(b.records, Plain(from, BASE_ASSET)) && given <= MAX_DEPOSIT
  {
    var s, w, d := Fresh(b), WithdrawOp(Plain(from, BASE_ASSET), taken), DepositOp(given, Plain(to, BASE_ASSET));
    var ops := [w, d];
    assert ops[..1] == [w] && [w][..0] == [] && Run(ctx, s, []) == Some(s);
    BaseIsPlain(b.records, from, to);
    assert Run(ctx, s, [w]).Some? <==> Accepts(ctx, s, w);
    if Accepts(ctx, s, w) {
      var mid := Step(ctx, s, w);
      assert mid.fees == map[BASE_ASSET := taken] && mid.minFees == map[];
      assert GetAsset(mid.records, BASE_ASSET) == GetAsset(b.records, BASE_ASSET);
      assert Run(ctx, s, ops).Some? <==> Accepts(ctx, mid, d);
      if Accepts(ctx, mid, d) {
        var end := Step(ctx, mid, d);
        assert end.fees == map[BASE_ASSET := taken - given] && end.minFees == map[] && end.rpAccount.None?;
        assert AssetKey(BASE_ASSET) in end.records;
        assert CanSettle(end) <==> taken - given >= 0;
      }
    }
  }

  lemma BaseIsPlain(r: Records, from: Address, to: Address)
    requires RecordsOk(r) && GetAsset(r, BASE_ASSET).Some?
    ensures GetAsset(r, BASE_ASSET).value.issuer.God? && GetAsset(r, BASE_ASSET).value.id == BASE_ASSET
    ensures (forall f :: !GetAsset(r, BASE_ASSET).value.IsActive(f)) && (forall o :: GetAsset(r, BASE_ASSET).value.IsWhitelisted(o))
    ensures BalanceKey(Plain(from, BASE_ASSET)) in r ==>
              GetBalance(r, Plain(from, BASE_ASSET)).Some? && GetBalance(r, Plain(from, BASE_ASSET)).value.condition == Plain(from, BASE_ASSET)
  {
    assert RecordOk(r, AssetKey(BASE_ASSET));
    assert BalanceKey(Plain(from, BASE_ASSET)) in r ==> RecordOk(r, BalanceKey(Plain(from, BASE_ASSET)));
  }

  /** A transaction that only claims base shares is accepted exactly when the claim is, and pays twice what the claim does. */
  lemma LoneClaim(ctx: Context, b: Books, id: PacketId, to: AccountId, baseFees: int)
    requires Keyed(b.records) && IdsUpTo(b.records, b.lastAccountId)
    requires GetPacket(b.records, id).Some? && GetPacket(b.records, id).value.asset == BASE_ASSET
    ensures Evaluated(ctx, b, [ClaimOp(id, to)], baseFees).Some? <==> ctx.ClaimPays(b.records, id, to).Some?
    ensures ctx.ClaimPays(b.records, id, to).Some? ==>
              ReferenceOf(Evaluated(ctx, b, [ClaimOp(id, to)], baseFees).value.records) ==
              ctx.ReferenceAfter(b.records, ClaimOp(id, to), ReferenceOf(b.records))
  {
    var s, op := Fresh(b), ClaimOp(id, to);
    assert [op][..0] == [] && Run(ctx, s, []) == Some(s);
    assert Run(ctx, s, [op]).Some? <==> Accepts(ctx, s, op);
    if Accepts(ctx, s, op) {
      ClaimDoes(ctx, s, id, to);
      StepKeeps(ctx, s, op);
      var w := AfterClaim(ctx, s, id, to);
      forall a | a in w.fees ensures w.fees[a] == 0 && a == BASE_ASSET {
        assert At(w.fees, a) == At(s.fees, a);
      }
      SettledKeeps(w, baseFees);
    }
  }
}
