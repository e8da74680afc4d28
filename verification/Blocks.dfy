/** Extending the chain state by one block: production counters, delegate pay, transactions, the order of
    the next round and the note rewards. */
module Blocks {
  import opened Prelude
  import opened Records
  import opened Ledger
  import opened Schedule
  import opened Arithmetic
  import opened Rewards
  import opened Operations
  import opened Effects
  import opened Transactions
  import opened Evaluation
  import opened Genesis
  import AccountIndex

  datatype Transaction = Transaction(id: TransactionId, signed: set<Address>, parentSigned: set<AccountId>,
                                     ops: seq<Operation>, baseFees: int)

  /** A block with the key recovered from its signature. `checked` is the outcome of the checks on what is not modelled
      here: the id of the parent, the clock, the digest, repeated transactions and the secret. `random` and `draws`
      are the numbers drawn from the random seed for the rewards and for the order of the next round. */
  datatype Block = Block(num: nat, timestamp: Time, signeeKey: Address, trxs: seq<Transaction>, checked: bool,
                         random: (nat, nat, nat), draws: nat -> nat)

  /** No claim in the name of the unclaimed marker. */
  ghost predicate RealClaims(trxs: seq<Transaction>) {
    forall t, op | t in trxs && op in t.ops :: RealClaimant(op)
  }

  /* ---------------------------------------------------------------- the transactions of a block */

  /** What transactions see of the head of the chain. */
  datatype Head = Head(time: Time, num: nat, skipSignatures: bool, slateId: set<AccountId> -> SlateId) {
    function ContextOf(t: Transaction): Context {
      Context(time, num, t.id, t.signed, skipSignatures, t.parentSigned, slateId)
    }
  }

  /** The books after the transactions in order; none when one of them is refused. */
  function AppliedAll(head: Head, b: Books, trxs: seq<Transaction>): Option<Books> {
    if trxs == [] then Some(b)
    else
      var before, t := AppliedAll(head, b, trxs[..|trxs| - 1]), trxs[|trxs| - 1];
      if before.None? then None else Evaluated(head.ContextOf(t), before.value, t.ops, t.baseFees)
  }

  lemma {:induction false} AppliedStops(head: Head, b: Books, trxs: seq<Transaction>, i: nat)
    requires i <= |trxs| && AppliedAll(head, b, trxs[..i]).None?
    ensures AppliedAll(head, b, trxs).None?
    decreases |trxs|
  {
    if i < |trxs| {
      assert trxs[..|trxs| - 1][..i] == trxs[..i];
      AppliedStops(head, b, trxs[..|trxs| - 1], i);
    } else {
      assert trxs[..i] == trxs;
    }
  }

  /** From any transaction on, accounts and production counters stay, and without claims of the unclaimed marker nothing
      is paid twice. */
  lemma {:induction false} AppliedKeeps(head: Head, b: Books, trxs: seq<Transaction>, i: nat)
    requires Keyed(b.records) && IdsUpTo(b.records, b.lastAccountId) && AppliedAll(head, b, trxs).Some? && i <= |trxs|
    ensures AppliedAll(head, b, trxs[..i]).Some?
    ensures var from, to := AppliedAll(head, b, trxs[..i]).value, AppliedAll(head, b, trxs).value;
            && Keeps(from.records, to.records) && IdsUpTo(to.records, to.lastAccountId)
            && NoLess(ReferenceOf(from.records), ReferenceOf(to.records))
            && (RealClaims(trxs) ==> ReferenceOf(to.records) == ReferenceOf(from.records))
    decreases |trxs|
  {
    if trxs == [] {
      assert trxs[..i] == trxs;
      SameKeeps(b.records);
    } else {
      var n := |trxs| - 1;
      var before, t := AppliedAll(head, b, trxs[..n]).value, trxs[n];
      AppliedKeeps(head, b, trxs[..n], 0);
      assert t in trxs && forall u | u in trxs[..n] :: u in trxs;
      EvaluatedKeeps(head.ContextOf(t), before, t.ops, t.baseFees);
      if i == |trxs| {
        assert trxs[..i] == trxs;
        SameKeeps(AppliedAll(head, b, trxs).value.records);
      } else {
        AppliedKeeps(head, b, trxs[..n], i);
        assert trxs[..n][..i] == trxs[..i];
        KeepsBoth(AppliedAll(head, b, trxs[..i]).value.records, before.records, AppliedAll(head, b, trxs).value.records);
      }
    }
  }

  predicate AllTransferTrxs(r: Records, trxs: seq<Transaction>) {
    forall i | 0 <= i < |trxs| :: AllTransfers(r, trxs[i].ops)
  }

  /** What the transactions add to a balance. */
  function MovedByTrxs(trxs: seq<Transaction>, c: Condition): int {
    if trxs == [] then 0 else MovedByTrxs(trxs[..|trxs| - 1], c) + MovedTo(trxs[|trxs| - 1].ops, c)
  }

  function FlowByTrxs(trxs: seq<Transaction>, a: AssetId): int {
    if trxs == [] then 0 else FlowByTrxs(trxs[..|trxs| - 1], a) + Flow(trxs[|trxs| - 1].ops, a)
  }

  /** The transactions of deposits and withdrawals of a block move each balance by its deposits less its withdrawals, and the
      collected fees of each asset by the difference. */
  lemma {:induction false} AppliedMoves(head: Head, b: Books, trxs: seq<Transaction>)
    requires Keyed(b.records) && IdsUpTo(b.records, b.lastAccountId) && AppliedAll(head, b, trxs).Some? && AllTransferTrxs(b.records, trxs)
    ensures var r := AppliedAll(head, b, trxs).value.records;
            && (forall c {:trigger MovedByTrxs(trxs, c)} :: AmountOf(r, c) == AmountOf(b.records, c) + MovedByTrxs(trxs, c))
            && (forall a {:trigger FlowByTrxs(trxs, a)} :: CollectedFees(r, a) == CollectedFees(b.records, a) + FlowByTrxs(trxs, a))
            && SameIssuers(b.records, r)
  {
    if trxs != [] {
      var n := |trxs| - 1;
      var before, t := AppliedAll(head, b, trxs[..n]).value, trxs[n];
      AppliedMoves(head, b, trxs[..n]);
      AppliedKeeps(head, b, trxs[..n], 0);
      SameTransfers(b.records, before.records, t.ops);
      TransfersMove(head.ContextOf(t), before, t.ops, t.baseFees);
      MovesOn(b.records, before.records, AppliedAll(head, b, trxs).value.records, trxs);
    }
  }

  /** The assets have the same issuers. */
  ghost predicate SameIssuers(before: Records, after: Records) {
    forall a {:trigger GetAsset(after, a)} ::
      && (GetAsset(after, a).Some? <==> GetAsset(before, a).Some?)
      && (GetAsset(before, a).Some? ==> GetAsset(after, a).value.issuer == GetAsset(before, a).value.issuer)
  }

  lemma SameTransfers(before: Records, after: Records, ops: seq<Operation>)
    requires SameIssuers(before, after) && AllTransfers(before, ops)
    ensures AllTransfers(after, ops)
  {
    forall i | 0 <= i < |ops| ensures IsTransfer(after, ops[i]) {
      assert IsTransfer(before, ops[i]);
    }
  }

  lemma MovesOn(start: Records, before: Records, after: Records, trxs: seq<Transaction>)
    requires trxs != [] && SameIssuers(start, before) && MovedBy(before, after, trxs[|trxs| - 1].ops)
    requires forall c {:trigger MovedByTrxs(trxs[..|trxs| - 1], c)} :: AmountOf(before, c) == AmountOf(start, c) + MovedByTrxs(trxs[..|trxs| - 1], c)
    requires forall a {:trigger FlowByTrxs(trxs[..|trxs| - 1], a)} ::
               CollectedFees(before, a) == CollectedFees(start, a) + FlowByTrxs(trxs[..|trxs| - 1], a)
    ensures forall c {:trigger MovedByTrxs(trxs, c)} :: AmountOf(after, c) == AmountOf(start, c) + MovedByTrxs(trxs, c)
    ensures forall a {:trigger FlowByTrxs(trxs, a)} :: CollectedFees(after, a) == CollectedFees(start, a) + FlowByTrxs(trxs, a)
    ensures SameIssuers(start, after)
  {
    var rest, ops := trxs[..|trxs| - 1], trxs[|trxs| - 1].ops;
    forall c ensures AmountOf(after, c) == AmountOf(start, c) + MovedByTrxs(trxs, c) {
      assert MovedByTrxs(trxs, c) == MovedByTrxs(rest, c) + MovedTo(ops, c);
    }
    forall a ensures CollectedFees(after, a) == CollectedFees(start, a) + FlowByTrxs(trxs, a) {
      assert FlowByTrxs(trxs, a) == FlowByTrxs(rest, a) + Flow(ops, a);
    }
    forall a ensures GetAsset(after, a).Some? <==> GetAsset(before, a).Some? {
    }
  }

  /* ---------------------------------------------------------------- the notes of a day */

  function NotesOfOps(ops: seq<Operation>): seq<Address> {
    if ops == [] then []
    else NotesOfOps(ops[..|ops| - 1]) + (if ops[|ops| - 1].NoteOp? then [ops[|ops| - 1].signer] else [])
  }

  function NotesOf(trxs: seq<Transaction>): seq<Address> {
    if trxs == [] then [] else NotesOf(trxs[..|trxs| - 1]) + NotesOfOps(trxs[|trxs| - 1].ops)
  }

  /** The signers of all notes in the blocks from `first` up to, not including, `end`. */
  function NotesBetween(blocks: map<nat, seq<Transaction>>, first: nat, end: nat): seq<Address>
    requires forall i | first <= i < end :: i in blocks
    decreases end
  {
    if end <= first then [] else NotesBetween(blocks, first, end - 1) + NotesOf(blocks[end - 1])
  }

  /** The notes come in the order of the blocks, of their transactions and of their operations, one for each note operation
      and under its signer: the notes of a part followed by another are the notes of the two, in that order. */
  lemma {:induction false} OpNotesJoin(a: seq<Operation>, b: seq<Operation>)
    ensures NotesOfOps(a + b) == NotesOfOps(a) + NotesOfOps(b)
  {
    if b == [] {
      assert a + b == a;
    } else {
      var rest, op := b[..|b| - 1], b[|b| - 1];
      var note := if op.NoteOp? then [op.signer] else [];
      calc {
        NotesOfOps(a + b);
      == { assert a + b == a + rest + [op]; }
        NotesOfOps(a + rest + [op]);
      == { OpNotesNext(a + rest, op); }
        NotesOfOps(a + rest) + note;
      == { OpNotesJoin(a, rest); Regroup(NotesOfOps(a), NotesOfOps(rest), note); }
        NotesOfOps(a) + (NotesOfOps(rest) + note);
      == { OpNotesNext(rest, op); assert b == rest + [op]; }
        NotesOfOps(a) + NotesOfOps(b);
      }
    }
  }

  lemma OpNotesNext(ops: seq<Operation>, op: Operation)
    ensures NotesOfOps(ops + [op]) == NotesOfOps(ops) + if op.NoteOp? then [op.signer] else []
  {
    assert (ops + [op])[..|ops|] == ops;
  }

  lemma {:induction false} NotesJoin(a: seq<Transaction>, b: seq<Transaction>)
    ensures NotesOf(a + b) == NotesOf(a) + NotesOf(b)
  {
    if b == [] {
      assert a + b == a;
    } else {
      var rest, t := b[..|b| - 1], b[|b| - 1];
      calc {
        NotesOf(a + b);
      == { assert a + b == a + rest + [t]; }
        NotesOf(a + rest + [t]);
      == { NotesNext(a + rest, t); }
        NotesOf(a + rest) + NotesOfOps(t.ops);
      == { NotesJoin(a, rest); Regroup(NotesOf(a), NotesOf(rest), NotesOfOps(t.ops)); }
        NotesOf(a) + (NotesOf(rest) + NotesOfOps(t.ops));
      == { NotesNext(rest, t); assert b == rest + [t]; }
        NotesOf(a) + NotesOf(b);
      }
    }
  }

  lemma NotesNext(trxs: seq<Transaction>, t: Transaction)
    ensures NotesOf(trxs + [t]) == NotesOf(trxs) + NotesOfOps(t.ops)
  {
    assert (trxs + [t])[..|trxs|] == trxs;
  }

  lemma Regroup<T>(x: seq<T>, y: seq<T>, z: seq<T>)
    ensures x + y + z == x + (y + z)
  {
  }

  lemma {:induction false} DaysJoin(blocks: map<nat, seq<Transaction>>, first: nat, mid: nat, end: nat)
    requires first <= mid <= end && forall i | first <= i < end :: i in blocks
    ensures NotesBetween(blocks, first, end) == NotesBetween(blocks, first, mid) + NotesBetween(blocks, mid, end)
    decreases end
  {
    if mid < end {
      DaysJoin(blocks, first, mid, end - 1);
      assert NotesBetween(blocks, mid, end) == NotesBetween(blocks, mid, end - 1) + NotesOf(blocks[end - 1]);
      assert NotesBetween(blocks, first, end) == NotesBetween(blocks, first, end - 1) + NotesOf(blocks[end - 1]);
    } else {
      assert NotesBetween(blocks, mid, end) == [];
    }
  }

  lemma DayIs(blocks: map<nat, seq<Transaction>>, num: nat)
    requires num in blocks
    ensures NotesBetween(blocks, num, num + 1) == NotesOf(blocks[num])
  {
    assert NotesBetween(blocks, num, num) == [];
  }

  /** The first block of the day that ends before block `num`; none when the difference wraps around. */
  function DayStart(num: nat): nat {
    if num == 0 then 0 else if num > BLOCKS_PER_DAY then num - BLOCKS_PER_DAY else 1
  }

  /** What an owner is paid for the winning notes among `winners`. */
  function PaidTo(winners: seq<nat>, notes: seq<Address>, owner: Address, amount: int): int
    requires forall i | 0 <= i < |winners| :: winners[i] < |notes|
  {
    if winners == [] then 0
    else PaidTo(winners[..|winners| - 1], notes, owner, amount) + (if notes[winners[|winners| - 1]] == owner then amount else 0)
  }

  /** The winning notes of an owner. */
  function WinsOf(winners: seq<nat>, notes: seq<Address>, owner: Address): set<nat>
    requires forall i | 0 <= i < |winners| :: winners[i] < |notes|
  {
    set i: nat | i < |winners| && notes[winners[i]] == owner
  }

  /** An owner is paid once for each winning note. */
  lemma {:induction false} PaidIsByWins(winners: seq<nat>, notes: seq<Address>, owner: Address, amount: int)
    requires forall i | 0 <= i < |winners| :: winners[i] < |notes|
    ensures PaidTo(winners, notes, owner, amount) == Times(|WinsOf(winners, notes, owner)|, amount)
  {
    if winners != [] {
      var n := |winners| - 1;
      var wins, rest := WinsOf(winners, notes, owner), WinsOf(winners[..n], notes, owner);
      PaidIsByWins(winners[..n], notes, owner, amount);
      if notes[winners[n]] == owner {
        assert wins == rest + {n};
      } else {
        assert wins == rest;
      }
    }
  }

  function BaseBalance(r: Records, owner: Address): int {
    AmountOf(r, Plain(owner, BASE_ASSET))
  }

  /** Every owner was paid what the winners up to position `i` have won. */
  ghost predicate LevelPaid(before: Records, after: Records, winners: seq<nat>, i: nat, notes: seq<Address>, amount: int)
    requires i <= |winners| && forall j | 0 <= j < |winners| :: winners[j] < |notes|
  {
    && OnlyBalances(before, after)
    && forall o {:trigger BaseBalance(after, o)} :: BaseBalance(after, o) == BaseBalance(before, o) + PaidTo(winners[..i], notes, o, amount)
  }

  lemma LevelNext(before: Records, mid: Records, after: Records, winners: seq<nat>, i: nat, notes: seq<Address>, amount: int)
    requires i < |winners| && forall j | 0 <= j < |winners| :: winners[j] < |notes|
    requires LevelPaid(before, mid, winners, i, notes, amount) && OnlyBalances(mid, after)
    requires forall o {:trigger BaseBalance(after, o)} ::
               BaseBalance(after, o) == BaseBalance(mid, o) + (if o == notes[winners[i]] then amount else 0)
    ensures LevelPaid(before, after, winners, i + 1, notes, amount)
  {
    assert winners[..i + 1][..i] == winners[..i];
  }

  /** What an owner has won on all levels. */
  function Won(w: Winners, notes: seq<Address>, owner: Address, first: int, second: int, third: int): int
    requires w.InRange(|notes|)
  {
    PaidTo(w.first, notes, owner, first) + PaidTo(w.second, notes, owner, second) + PaidTo(w.third, notes, owner, third)
  }

  /** An owner wins 40 percent of the share for the note of the first level, 15 for each of the second and 6 for each of the
      third, each rounded down. */
  lemma WonIs(w: Winners, notes: seq<Address>, owner: Address, share: int) returns (first: int, second: int, third: int)
    requires w.InRange(|notes|)
    ensures 100 * first <= 40 * share < 100 * first + 100 && 100 * second <= 15 * share < 100 * second + 100
    ensures 100 * third <= 6 * share < 100 * third + 100
    ensures Won(w, notes, owner, Reward(share, 0), Reward(share, 1), Reward(share, 2)) ==
            Times(|WinsOf(w.first, notes, owner)|, first) + Times(|WinsOf(w.second, notes, owner)|, second) + Times(|WinsOf(w.third, notes, owner)|, third)
  {
    first, second, third := Reward(share, 0), Reward(share, 1), Reward(share, 2);
    RewardIs(share);
    PaidIsByWins(w.first, notes, owner, first);
    PaidIsByWins(w.second, notes, owner, second);
    PaidIsByWins(w.third, notes, owner, third);
  }

  /** The winners are distinct positions among the notes, drawn by the random numbers, and every owner was paid exactly what
      was won. */
  ghost predicate Rewarded(before: Records, after: Records, w: Winners, notes: seq<Address>, share: int, random: (nat, nat, nat)) {
    && w.InRange(|notes|) && Distinct(w.All()) && DrawnInOrder(|notes|, random, w)
    && |w.first| <= 1 && |w.second| <= 2 && |w.third| <= 5 && |w.All()| == (if |notes| <= 8 then |notes| else 8)
    && forall o {:trigger BaseBalance(after, o)} ::
         BaseBalance(after, o) == BaseBalance(before, o) + Won(w, notes, o, Reward(share, 0), Reward(share, 1), Reward(share, 2))
  }

  /** Nothing but plain balances of base shares was written. */
  ghost predicate OnlyBalances(before: Records, after: Records) {
    forall k: Key | !IsPlainBase(k) :: (k in before <==> k in after) && (k in before ==> after[k] == before[k])
  }

  predicate IsPlainBase(k: Key) {
    k.BalanceKey? && k.condition.asset == BASE_ASSET && k.condition.slate == 0 && k.condition.lock.Signature? && k.condition.lock.memo == 0
  }

  /* ---------------------------------------------------------------- the delegates of a round */

  function Drawn(draws: nat -> nat, n: nat): (s: seq<nat>)
    ensures |s| == n
  {
    seq(n, i requires 0 <= i => draws(i))
  }

  /** The votes of the listed delegates. */
  function VotesOf(r: Records): set<AccountIndex.Vote> {
    set k | k in r && k.AccountKey? && GetAccount(r, k.account).Some? && AccountIndex.IsListed(GetAccount(r, k.account).value)
      :: AccountIndex.VoteOf(GetAccount(r, k.account).value)
  }

  /** The highest delegates by votes, at most a round of them. */
  ghost predicate IsTop(r: Records, top: seq<AccountId>) {
    exists ranking :: AccountIndex.Ranks(ranking, VotesOf(r)) && AccountIndex.IsPage(top, ranking, 0, NUM_DELEGATES)
  }

  function AccountsOf(r: Records): AccountIndex.Accounts {
    map k | k in r && k.AccountKey? && r[k].AccountRecord? :: k.account := r[k].account
  }

  /** The ids are all listed delegates, or a round of them, and each has more votes than every listed delegate left out, or
      as many and a lower id. */
  ghost predicate TopByVotes(r: Records, ids: seq<AccountId>) {
    && Distinct(ids) && (forall d | d in ids :: Listed(r, d))
    && (|ids| < NUM_DELEGATES ==> forall e | Listed(r, e) :: e in ids) && |ids| <= NUM_DELEGATES
    && forall d, e | d in ids && e !in ids && Listed(r, d) && Listed(r, e) ::
         var x, y := GetAccount(r, d).value.delegate.value.votesFor, GetAccount(r, e).value.delegate.value.votesFor;
         x > y || (x == y && d < e)
  }

  /** A delegate that is not retracted. */
  predicate Listed(r: Records, d: AccountId) {
    GetAccount(r, d).Some? && GetAccount(r, d).value.IsDelegate() && !GetAccount(r, d).value.IsRetracted()
  }

  /** The top are listed delegates without repeats, by falling votes and rising ids, and nobody left out has more votes
      than one of them. */
  lemma TopIsTrue(r: Records, top: seq<AccountId>)
    requires RecordsOk(r) && IsTop(r, top)
    ensures TopByVotes(r, top)
    ensures forall i, j | 0 <= i < j < |top| ::
              Listed(r, top[i]) && Listed(r, top[j]) &&
              var x, y := GetAccount(r, top[i]).value.delegate.value.votesFor, GetAccount(r, top[j]).value.delegate.value.votesFor;
              x > y || (x == y && top[i] < top[j])
  {
    var ranking: seq<AccountIndex.Vote> :| AccountIndex.Ranks(ranking, VotesOf(r)) && AccountIndex.IsPage(top, ranking, 0, NUM_DELEGATES);
    VotesOfAgree(r);
    AccountIndex.TopIsTrue(AccountsOf(r), VotesOf(r), ranking, |top|);
    assert top == seq(|top|, i requires 0 <= i < |top| => ranking[i].id);
    forall i | 0 <= i < |top| ensures Listed(r, top[i]) && AccountIndex.VoteOf(GetAccount(r, top[i]).value) == ranking[i] {
      RankedIsListed(r, ranking[i]);
    }
    forall e | Listed(r, e) ensures e in AccountsOf(r) && AccountIndex.IsListed(AccountsOf(r)[e]) {
    }
    if |top| < NUM_DELEGATES {
      forall e | Listed(r, e) ensures e in top {
        var v := AccountIndex.VoteOf(AccountsOf(r)[e]);
        assert v in ranking;
        var j :| 0 <= j < |ranking| && ranking[j] == v;
        assert RecordOk(r, AccountKey(e));
        assert top[j] == e;
      }
    }
  }

  lemma ShuffledIsTop(r: Records, top: seq<AccountId>, ids: seq<AccountId>)
    requires TopByVotes(r, top) && multiset(ids) == multiset(top) && Distinct(ids)
    ensures TopByVotes(r, ids)
  {
    assert |ids| == |multiset(ids)| == |top|;
    forall d ensures d in ids <==> d in top {
      assert d in multiset(ids) <==> d in multiset(top);
    }
  }

  lemma RankedIsListed(r: Records, v: AccountIndex.Vote)
    requires RecordsOk(r) && v in VotesOf(r)
    ensures Listed(r, v.id) && AccountIndex.VoteOf(GetAccount(r, v.id).value) == v
  {
    var k :| k in r && k.AccountKey? && GetAccount(r, k.account).Some? && AccountIndex.IsListed(GetAccount(r, k.account).value) &&
             v == AccountIndex.VoteOf(GetAccount(r, k.account).value);
    assert RecordOk(r, k);
  }

  lemma VotesOfAgree(r: Records)
    requires RecordsOk(r)
    ensures AccountIndex.IdsAgree(AccountsOf(r)) && AccountIndex.VotesAgree(AccountsOf(r), VotesOf(r))
  {
    var accounts := AccountsOf(r);
    forall id | id in accounts ensures accounts[id].id == id && GetAccount(r, id) == Some(accounts[id]) {
      assert RecordOk(r, AccountKey(id));
    }
    forall v | v in VotesOf(r)
      ensures v.id in accounts && AccountIndex.IsListed(accounts[v.id]) && AccountIndex.VoteOf(accounts[v.id]) == v
    {
      var k :| k in r && k.AccountKey? && GetAccount(r, k.account).Some? && AccountIndex.IsListed(GetAccount(r, k.account).value) &&
               v == AccountIndex.VoteOf(GetAccount(r, k.account).value);
      assert RecordOk(r, k) && k.account in accounts;
    }
    forall id | id in accounts && AccountIndex.IsListed(accounts[id]) ensures AccountIndex.VoteOf(accounts[id]) in VotesOf(r) {
      assert AccountKey(id) in r;
    }
  }

  /* ---------------------------------------------------------------- production */

  /** How many of the n slots from `first` belong to delegate `d`. */
  function Turns(active: seq<AccountId>, first: Time, n: nat, d: AccountId): nat {
    if n == 0 then 0
    else Turns(active, first, n - 1, d) + (if SlotSignee(Later(first, n - 1), active) == Some(d) then 1 else 0)
  }

  /** The turns of a delegate are the slots that it owns. */
  lemma {:induction false} TurnsAreSlots(active: seq<AccountId>, first: Time, n: nat, d: AccountId)
    ensures Turns(active, first, n, d) == |set k: nat | k < n && SlotSignee(Later(first, k), active) == Some(d)|
  {
    var slots := set k: nat | k < n && SlotSignee(Later(first, k), active) == Some(d);
    if n > 0 {
      var rest := set k: nat | k < n - 1 && SlotSignee(Later(first, k), active) == Some(d);
      TurnsAreSlots(active, first, n - 1, d);
      if SlotSignee(Later(first, n - 1), active) == Some(d) {
        assert slots == rest + {n - 1};
      } else {
        assert slots == rest;
      }
    }
  }

  /** What one accepted block charged: the missed slots from `first` on, by the order of the round, and a block. */
  datatype ChargeEntry = ChargeEntry(order: seq<AccountId>, first: Time, missed: nat, signee: AccountId) {
    function Count(d: AccountId, duty: Duty): nat {
      if duty.Produced? then (if d == signee then 1 else 0) else Turns(order, first, missed, d)
    }
  }

  /** Every delegate was charged what the entry says. */
  ghost predicate ChargedFor(before: Records, after: Records, entry: ChargeEntry) {
    forall d, e {:trigger Counter(after, d, e)} :: Counter(after, d, e) == Counter(before, d, e) + entry.Count(d, e)
  }

  /** The pay rate and the signing key of a delegate. */
  function TermsOf(r: Records, d: AccountId): Option<(nat, Address)> {
    if IsDelegate(r, d) then Some((GetAccount(r, d).value.delegate.value.payRate, GetAccount(r, d).value.SigningKey())) else None
  }

  predicate GoodRate(r: Records, d: AccountId) {
    TermsOf(r, d).Some? && TermsOf(r, d).value.0 <= 100
  }

  /** The same delegates, at the same pay rates and with the same signing keys. */
  ghost predicate SameDelegates(before: Records, after: Records) {
    forall d {:trigger TermsOf(after, d)} {:trigger IsDelegate(after, d)} {:trigger IsDelegate(before, d)} :: TermsOf(after, d) == TermsOf(before, d)
  }

  /** Each of the n slots from `first` belongs to a delegate. */
  predicate SlotsOwned(r: Records, active: seq<AccountId>, first: Time, n: nat) {
    forall k | 0 <= k < n :: SlotOwned(r, active, Later(first, k))
  }

  predicate SlotOwned(r: Records, active: seq<AccountId>, slot: Time) {
    SlotSignee(slot, active).Some? && IsDelegate(r, SlotSignee(slot, active).value)
  }

  lemma SlotOwnedSame(before: Records, after: Records, active: seq<AccountId>, slot: Time)
    requires SameDelegates(before, after)
    ensures SlotOwned(after, active, slot) <==> SlotOwned(before, active, slot)
  {
    if SlotSignee(slot, active).Some? {
      assert TermsOf(after, SlotSignee(slot, active).value) == TermsOf(before, SlotSignee(slot, active).value);
    }
  }

  lemma SlotsOwnedSame(before: Records, after: Records, active: seq<AccountId>, first: Time, n: nat)
    requires SameDelegates(before, after)
    ensures SlotsOwned(after, active, first, n) <==> SlotsOwned(before, active, first, n)
  {
    forall slot ensures SlotOwned(after, active, slot) <==> SlotOwned(before, active, slot) {
      SlotOwnedSame(before, after, active, slot);
    }
  }

  lemma SlotNotOwned(r: Records, active: seq<AccountId>, first: Time, k: nat, n: nat)
    requires k < n && !SlotOwned(r, active, Later(first, k))
    ensures !SlotsOwned(r, active, first, n)
  {
  }

  /** The rewards of a block can be drawn: it is not the first of a day, or all blocks of the last day are known and
      the winners among their notes can be drawn. */
  predicate RewardsDue(blocks: map<nat, seq<Transaction>>, num: nat) {
    num % BLOCKS_PER_DAY == 0 ==>
      && (forall i | DayStart(num) <= i < num :: i in blocks)
      && CanPick(|NotesBetween(blocks, DayStart(num), num)|)
  }

  predicate CanPick(count: nat) {
    Drawable(Less(count, 1), 2) && Drawable(Less(Less(count, 1), 2), 5)
  }

  /** The reference after more slots have passed. */
  function Passed(ref: Reference, produced: nat, missed: nat): Reference {
    ref.(produced := ref.produced + produced, missed := ref.missed + missed)
  }

  /** One slot was charged to `id`. */
  ghost predicate ChargedOne(before: Records, after: Records, id: AccountId, duty: Duty) {
    && SameDelegates(before, after)
    && (forall d, e {:trigger Counter(after, d, e)} ::
          Counter(after, d, e) == Counter(before, d, e) + (if d == id && e == duty then 1 else 0))
  }

  lemma ChargeProducer(before: Records, after: Records, active: seq<AccountId>, first: Time, signee: AccountId)
    requires ChargedOne(before, after, signee, Produced)
    ensures ChargedFor(before, after, ChargeEntry(active, first, 0, signee))
  {
    forall d, e ensures Counter(after, d, e) == Counter(before, d, e) + ChargeEntry(active, first, 0, signee).Count(d, e) {
      assert Turns(active, first, 0, d) == 0 && (e == Produced || e == Missed);
    }
  }

  lemma ChargeNext(before: Records, r: Records, after: Records, active: seq<AccountId>, first: Time, n: nat, signee: AccountId, id: AccountId)
    requires ChargedFor(before, r, ChargeEntry(active, first, n, signee))
    requires ChargedOne(r, after, id, Missed) && SlotSignee(Later(first, n), active) == Some(id)
    ensures ChargedFor(before, after, ChargeEntry(active, first, n + 1, signee))
  {
    forall d, e ensures Counter(after, d, e) == Counter(before, d, e) + ChargeEntry(active, first, n + 1, signee).Count(d, e) {
      assert e == Produced || e == Missed;
      assert Counter(r, d, e) == Counter(before, d, e) + ChargeEntry(active, first, n, signee).Count(d, e);
    }
  }

  /** What happens after the production info leaves the counters alone. */
  lemma KeepCharges(before: Records, r: Records, after: Records, entry: ChargeEntry)
    requires ChargedFor(before, r, entry) && SameCounters(r, after)
    ensures ChargedFor(before, after, entry)
  {
  }

  /** The number of slots strictly between the head and a block. */
  function MissedSlots(head: Time, timestamp: Time): int {
    if timestamp <= head then 0 else (timestamp - head) / BLOCK_INTERVAL - 1
  }

  /** The n-th slot after the head is before a block exactly when fewer than the missed slots come first. */
  lemma SlotsPassed(head: Time, timestamp: Time, n: nat)
    requires head % BLOCK_INTERVAL == 0 && timestamp % BLOCK_INTERVAL == 0
    ensures Later(head + BLOCK_INTERVAL, n) < timestamp <==> n < MissedSlots(head, timestamp)
  {
  }

  /** The part of a block's share that its producer takes, by the pay rate in percent. */
  function AcceptedPay(r: Records, signee: AccountId): int
    requires IsDelegate(r, signee)
  {
    Percent(MaxPayPerBlock(r), GetAccount(r, signee).value.delegate.value.payRate)
  }

  function Percent(max: int, rate: nat): int {
    max * rate / 100
  }

  /** A paycheck in numbers: a block's share of the fees is a 120960th, the producer takes the pay rate's percentage of it
      twice, once in new shares and once in fees, and both divisions round down. */
  ghost predicate PaidAtRate(fees: int, rate: nat, max: int, accepted: int) {
    && 120960 * max <= fees < 120960 * max + 120960
    && 100 * accepted <= max * rate < 100 * accepted + 100
    && 0 <= accepted <= max <= fees
    && (rate == 100 ==> accepted == max) && (rate == 0 ==> accepted == 0)
  }

  lemma PayIsAtRate(r: Records, signee: AccountId)
    requires IsDelegate(r, signee) && GetAccount(r, signee).value.delegate.value.payRate <= 100
    requires CollectedFees(r, BASE_ASSET) >= 0
    ensures PaidAtRate(CollectedFees(r, BASE_ASSET), GetAccount(r, signee).value.delegate.value.payRate,
                       MaxPayPerBlock(r), AcceptedPay(r, signee))
  {
    AcceptedIsPart(r, signee);
    ShareRoundsDown(CollectedFees(r, BASE_ASSET));
    PercentRoundsDown(MaxPayPerBlock(r), GetAccount(r, signee).value.delegate.value.payRate);
  }

  lemma ShareRoundsDown(fees: int)
    ensures 120960 * (fees / BLOCKS_PER_TWO_WEEKS) <= fees < 120960 * (fees / BLOCKS_PER_TWO_WEEKS) + 120960
  {
    assert BLOCKS_PER_TWO_WEEKS == 120960;
  }

  lemma PercentRoundsDown(max: int, rate: nat)
    ensures 100 * Percent(max, rate) <= max * rate < 100 * Percent(max, rate) + 100
    ensures (rate == 100 ==> Percent(max, rate) == max) && (rate == 0 ==> Percent(max, rate) == 0)
  {
  }

  lemma AcceptedIsPart(r: Records, signee: AccountId)
    requires IsDelegate(r, signee) && GetAccount(r, signee).value.delegate.value.payRate <= 100
    requires CollectedFees(r, BASE_ASSET) >= 0
    ensures 0 <= AcceptedPay(r, signee) <= MaxPayPerBlock(r) <= CollectedFees(r, BASE_ASSET)
  {
    ShareIsPart(CollectedFees(r, BASE_ASSET));
    PercentIsPart(MaxPayPerBlock(r), GetAccount(r, signee).value.delegate.value.payRate);
  }

  lemma ShareIsPart(fees: int)
    requires fees >= 0
    ensures 0 <= fees / BLOCKS_PER_TWO_WEEKS <= fees
  {
  }

  lemma PercentIsPart(max: int, rate: nat)
    requires max >= 0 && rate <= 100
    ensures 0 <= Percent(max, rate) <= max
  {
    MulMonotone(0, rate, max);
    MulMonotone(rate, 100, max);
    DivMonotone(0, max * rate, 100);
    DivMonotone(max * rate, max * 100, 100);
    DivExact(max, 100);
  }

  /** What one day's rewards are taken from: a fourteenth of the pool. */
  function DailyShare(pool: int): int {
    pool * BLOCKS_PER_DAY / BLOCKS_PER_TWO_WEEKS
  }

  lemma DailyShareIs(pool: int)
    ensures 14 * DailyShare(pool) <= pool < 14 * DailyShare(pool) + 14
  {
    assert BLOCKS_PER_DAY == 8640 && BLOCKS_PER_TWO_WEEKS == 14 * 8640;
    DivRoundsDown(pool * BLOCKS_PER_DAY, BLOCKS_PER_TWO_WEEKS);
  }

  lemma DailyShareIsPart(pool: int)
    requires pool >= 0
    ensures 0 <= DailyShare(pool) <= pool
  {
    DivMonotone(0, pool * BLOCKS_PER_DAY, BLOCKS_PER_TWO_WEEKS);
    DivMonotone(pool * BLOCKS_PER_DAY, pool * BLOCKS_PER_TWO_WEEKS, BLOCKS_PER_TWO_WEEKS);
    DivExact(pool, BLOCKS_PER_TWO_WEEKS);
  }

  /* ---------------------------------------------------------------- what a block does before and after its transactions */

  /** A slot charged to a delegate. */
  function SlotCharged(r: Records, id: AccountId, duty: Duty, lastBlock: nat): Records
    requires IsDelegate(r, id)
  {
    var acc := GetAccount(r, id).value;
    var info := ChargedSlot(acc.delegate.value, duty).(lastBlockProduced := lastBlock);
    r[AccountKey(id) := AccountRecord(acc.(delegate := Some(info)))][ReferenceKey := ReferenceRecord(CountedSlot(ReferenceOf(r), duty))]
  }

  /** A slot passed over, charged to the delegate whose turn it was. */
  function TurnCharged(r: Records, active: seq<AccountId>, slot: Time): Records {
    if !SlotOwned(r, active, slot) then r
    else
      var id := SlotSignee(slot, active).value;
      SlotCharged(r, id, Missed, GetAccount(r, id).value.delegate.value.lastBlockProduced)
  }

  function TurnsCharged(r: Records, active: seq<AccountId>, first: Time, n: nat): Records {
    if n == 0 then r else TurnCharged(TurnsCharged(r, active, first, n - 1), active, Later(first, n - 1))
  }

  lemma SlotIsCharged(r: Records, id: AccountId, duty: Duty, lastBlock: nat)
    requires IsDelegate(r, id)
    ensures ChargedOne(r, SlotCharged(r, id, duty, lastBlock), id, duty)
    ensures ReferenceOf(SlotCharged(r, id, duty, lastBlock)) == CountedSlot(ReferenceOf(r), duty)
  {
    var after := SlotCharged(r, id, duty, lastBlock);
    forall d, e ensures Counter(after, d, e) == Counter(r, d, e) + (if d == id && e == duty then 1 else 0) {
    }
  }

  /** Every delegate is charged its turns, and the delegates stay. */
  lemma {:induction false} TurnsAreCharged(before: Records, r: Records, active: seq<AccountId>, first: Time, n: nat, signee: AccountId)
    requires ChargedFor(before, r, ChargeEntry(active, first, 0, signee)) && SlotsOwned(r, active, first, n)
    ensures var after := TurnsCharged(r, active, first, n);
            && ChargedFor(before, after, ChargeEntry(active, first, n, signee)) && SameDelegates(r, after)
            && ReferenceOf(after) == Passed(ReferenceOf(r), 0, n)
  {
    if n > 0 {
      var mid, slot := TurnsCharged(r, active, first, n - 1), Later(first, n - 1);
      TurnsAreCharged(before, r, active, first, n - 1, signee);
      assert SlotOwned(r, active, slot);
      SlotOwnedSame(r, mid, active, slot);
      TurnsKeepDelegates(r, active, first, n);
      var id := SlotSignee(slot, active).value;
      SlotIsCharged(mid, id, Missed, GetAccount(mid, id).value.delegate.value.lastBlockProduced);
      ChargeNext(before, mid, TurnsCharged(r, active, first, n), active, first, n - 1, signee, id);
    }
  }

  lemma TurnsKeepOwner(r: Records, active: seq<AccountId>, first: Time, n: nat)
    requires SlotsOwned(r, active, first, n)
    ensures SlotOwned(TurnsCharged(r, active, first, n), active, Later(first, n)) <==> SlotOwned(r, active, Later(first, n))
  {
    TurnsKeepDelegates(r, active, first, n);
    SlotOwnedSame(r, TurnsCharged(r, active, first, n), active, Later(first, n));
  }

  lemma {:induction false} TurnsKeepDelegates(r: Records, active: seq<AccountId>, first: Time, n: nat)
    ensures SameDelegates(r, TurnsCharged(r, active, first, n))
  {
    if n > 0 {
      var mid, slot := TurnsCharged(r, active, first, n - 1), Later(first, n - 1);
      TurnsKeepDelegates(r, active, first, n - 1);
      if SlotOwned(mid, active, slot) {
        var id := SlotSignee(slot, active).value;
        SlotIsCharged(mid, id, Missed, GetAccount(mid, id).value.delegate.value.lastBlockProduced);
        DelegatesBoth(r, mid, TurnsCharged(r, active, first, n));
      }
    }
  }

  lemma DelegatesBoth(a: Records, b: Records, c: Records)
    requires SameDelegates(a, b) && SameDelegates(b, c)
    ensures SameDelegates(a, c)
  {
    forall d ensures TermsOf(c, d) == TermsOf(a, d) {
      assert TermsOf(c, d) == TermsOf(b, d);
    }
  }

  /** The block and the slots passed over, charged. */
  function WithProduction(r: Records, entry: ChargeEntry, num: nat): Records
    requires IsDelegate(r, entry.signee)
  {
    TurnsCharged(SlotCharged(r, entry.signee, Produced, num), entry.order, entry.first, entry.missed)
  }

  lemma ProductionIsCharged(r: Records, entry: ChargeEntry, num: nat)
    requires IsDelegate(r, entry.signee) && SlotsOwned(r, entry.order, entry.first, entry.missed)
    ensures var after := WithProduction(r, entry, num);
            && ChargedFor(r, after, entry) && SameDelegates(r, after) && ReferenceOf(after) == Passed(ReferenceOf(r), 1, entry.missed)
  {
    var active, first, missed, signee := entry.order, entry.first, entry.missed, entry.signee;
    var produced := SlotCharged(r, signee, Produced, num);
    SlotIsCharged(r, signee, Produced, num);
    ChargeProducer(r, produced, active, first, signee);
    SlotsOwnedSame(r, produced, active, first, missed);
    TurnsAreCharged(r, produced, active, first, missed, signee);
    DelegatesBoth(r, produced, TurnsCharged(produced, active, first, missed));
  }

  function PayAdded(r: Records, id: AccountId, amount: int): Records
    requires IsDelegate(r, id)
  {
    var acc := GetAccount(r, id).value;
    var info := acc.delegate.value;
    var info' := info.(votesFor := info.votesFor + amount, payBalance := info.payBalance + amount, totalPaid := info.totalPaid + amount);
    r[AccountKey(id) := AccountRecord(acc.(delegate := Some(info')))]
  }

  function FeesTaken(r: Records, amount: int, issued: int): Records {
    if GetAsset(r, BASE_ASSET).None? then r
    else
      var asset := GetAsset(r, BASE_ASSET).value;
      r[AssetKey(BASE_ASSET) := AssetRecord(asset.(currentSupply := asset.currentSupply + issued, collectedFees := asset.collectedFees - amount))]
  }

  function ProducerPaid(r: Records, signee: AccountId): Records {
    if !IsDelegate(r, signee) then r
    else
      var max, accepted := MaxPayPerBlock(r), AcceptedPay(r, signee);
      FeesTaken(PayAdded(r, signee, accepted + accepted), max, accepted - (max - accepted))
  }

  /** The records that the transactions of a block start from: the block and the slots passed over are charged, and its
      producer is paid. */
  function PreparedBy(r: Records, entry: ChargeEntry, num: nat): Records {
    if !IsDelegate(r, entry.signee) then r else ProducerPaid(WithProduction(r, entry, num), entry.signee)
  }

  /** Nothing was written but delegates' records, the slot count and the base asset, and the accounts and issuers stay. */
  ghost predicate OnlyProduction(before: Records, after: Records) {
    && (forall k: Key | !k.AccountKey? && k != ReferenceKey && k != AssetKey(BASE_ASSET) ::
          (k in before <==> k in after) && (k in before ==> after[k] == before[k]))
    && (forall id :: AccountKey(id) in after <==> AccountKey(id) in before)
    && AccountsStay(before, after) && SameIssuers(before, after) && (Keyed(before) ==> Keyed(after))
  }

  lemma ProductionBoth(a: Records, b: Records, c: Records)
    requires OnlyProduction(a, b) && OnlyProduction(b, c)
    ensures OnlyProduction(a, c)
  {
    forall k: Key | !k.AccountKey? && k != ReferenceKey && k != AssetKey(BASE_ASSET)
      ensures (k in a <==> k in c) && (k in a ==> c[k] == a[k])
    {
      assert (k in a <==> k in b) && (k in b <==> k in c);
    }
    forall id ensures AccountKey(id) in c <==> AccountKey(id) in a {
      assert AccountKey(id) in b <==> AccountKey(id) in a;
    }
    forall id | GetAccount(a, id).Some?
      ensures GetAccount(c, id).Some? && GetAccount(c, id).value.name == GetAccount(a, id).value.name
              && GetAccount(c, id).value.ownerKey == GetAccount(a, id).value.ownerKey
    {
      assert GetAccount(b, id).Some?;
    }
    forall x
      ensures GetAsset(c, x).Some? <==> GetAsset(a, x).Some?
      ensures (GetAsset(a, x).Some? ==> GetAsset(c, x).value.issuer == GetAsset(a, x).value.issuer)
    {
      assert GetAsset(b, x).Some? <==> GetAsset(a, x).Some?;
    }
  }

  lemma PutIsProduction(r: Records, k: Key, rec: Record)
    requires match k
             case AccountKey(id) => rec.AccountRecord? && rec.account.id == id && GetAccount(r, id).Some?
                                    && rec.account.name == GetAccount(r, id).value.name && rec.account.ownerKey == GetAccount(r, id).value.ownerKey
             case AssetKey(a) => a == BASE_ASSET && rec.AssetRecord? && rec.asset.id == a && GetAsset(r, a).Some?
                                 && rec.asset.issuer == GetAsset(r, a).value.issuer
             case ReferenceKey => rec.ReferenceRecord?
             case _ => false
    ensures OnlyProduction(r, r[k := rec])
  {
    var after := r[k := rec];
    forall x | Keyed(r) && x in after ensures KeyedAt(after, x) {
      assert x != k ==> KeyedAt(r, x);
    }
  }

  lemma SlotIsProduction(r: Records, id: AccountId, duty: Duty, lastBlock: nat)
    requires Keyed(r) && IsDelegate(r, id)
    ensures OnlyProduction(r, SlotCharged(r, id, duty, lastBlock))
  {
    assert KeyedAt(r, AccountKey(id));
    var after := SlotCharged(r, id, duty, lastBlock);
    var mid := r[AccountKey(id) := after[AccountKey(id)]];
    PutIsProduction(r, AccountKey(id), after[AccountKey(id)]);
    PutIsProduction(mid, ReferenceKey, after[ReferenceKey]);
    assert after == mid[ReferenceKey := after[ReferenceKey]];
    ProductionBoth(r, mid, after);
  }

  lemma {:induction false} TurnsAreProduction(r: Records, active: seq<AccountId>, first: Time, n: nat)
    requires Keyed(r)
    ensures OnlyProduction(r, TurnsCharged(r, active, first, n))
  {
    if n > 0 {
      var before, slot := TurnsCharged(r, active, first, n - 1), Later(first, n - 1);
      TurnsAreProduction(r, active, first, n - 1);
      if SlotOwned(before, active, slot) {
        var id := SlotSignee(slot, active).value;
        SlotIsProduction(before, id, Missed, GetAccount(before, id).value.delegate.value.lastBlockProduced);
        ProductionBoth(r, before, TurnsCharged(r, active, first, n));
      }
    }
  }

  lemma PayIsProduction(r: Records, signee: AccountId)
    requires Keyed(r)
    ensures OnlyProduction(r, ProducerPaid(r, signee))
  {
    if IsDelegate(r, signee) {
      assert KeyedAt(r, AccountKey(signee));
      var max, accepted := MaxPayPerBlock(r), AcceptedPay(r, signee);
      var mid := PayAdded(r, signee, accepted + accepted);
      PutIsProduction(r, AccountKey(signee), mid[AccountKey(signee)]);
      if GetAsset(mid, BASE_ASSET).Some? {
        assert KeyedAt(mid, AssetKey(BASE_ASSET));
        PutIsProduction(mid, AssetKey(BASE_ASSET), ProducerPaid(r, signee)[AssetKey(BASE_ASSET)]);
        ProductionBoth(r, mid, ProducerPaid(r, signee));
      }
    }
  }

  /** Before the transactions of a block no balance is touched, and every account stays. */
  lemma PreparedKeeps(r: Records, entry: ChargeEntry, num: nat)
    requires Keyed(r)
    ensures OnlyProduction(r, PreparedBy(r, entry, num))
  {
    if IsDelegate(r, entry.signee) {
      var produced, charged := SlotCharged(r, entry.signee, Produced, num), WithProduction(r, entry, num);
      SlotIsProduction(r, entry.signee, Produced, num);
      TurnsAreProduction(produced, entry.order, entry.first, entry.missed);
      PayIsProduction(charged, entry.signee);
      ProductionBoth(r, produced, charged);
      ProductionBoth(r, charged, ProducerPaid(charged, entry.signee));
    }
  }

  /** What an owner of winning notes has won, on a plain balance of base shares. */
  function Prize(w: Winners, notes: seq<Address>, share: int, c: Condition): int
    requires w.InRange(|notes|)
  {
    if IsPlainBase(BalanceKey(c)) then Won(w, notes, c.lock.owner, Reward(share, 0), Reward(share, 1), Reward(share, 2)) else 0
  }

  /** The records that rewards do not touch: all but the pool and the plain balances of base shares. */
  function Unrewarded(r: Records): Records {
    map k | k in r && k != RewardKey && !IsPlainBase(k) :: r[k]
  }

  lemma UnrewardedIs(r: Records, k: Key)
    requires k != RewardKey && !IsPlainBase(k)
    ensures k in Unrewarded(r) <==> k in r
    ensures k in r ==> Unrewarded(r)[k] == r[k]
  {
  }

  /** After the transactions only the rewards move shares: none, unless the block is the first of a day, and then every
      winner that the random numbers draw gets what was won. */
  ghost predicate RewardsPaid(before: Records, after: Records, blocks: map<nat, seq<Transaction>>, num: nat, random: (nat, nat, nat), w: Winners) {
    && Unrewarded(after) == Unrewarded(before)
    && if num % BLOCKS_PER_DAY != 0 then forall c {:trigger AmountOf(after, c)} :: AmountOf(after, c) == AmountOf(before, c)
       else
         && (forall i | DayStart(num) <= i < num :: i in blocks)
         && var notes, share := NotesBetween(blocks, DayStart(num), num), DailyShare(At(Pool(before), BASE_ASSET));
            && DrawnInOrder(|notes|, random, w) && w.InRange(|notes|)
            && forall c {:trigger AmountOf(after, c)} :: AmountOf(after, c) == AmountOf(before, c) + Prize(w, notes, share, c)
  }

  lemma RewardedIsPaid(before: Records, mid: Records, after: Records, blocks: map<nat, seq<Transaction>>, num: nat,
                       random: (nat, nat, nat), w: Winners)
    requires OnlyBalances(before, mid) && forall k: Key | k != RewardKey :: (k in mid <==> k in after) && (k in mid ==> after[k] == mid[k])
    requires num % BLOCKS_PER_DAY != 0 ==> mid == before
    requires num % BLOCKS_PER_DAY == 0 ==>
               && (forall i | DayStart(num) <= i < num :: i in blocks)
               && Rewarded(before, mid, w, NotesBetween(blocks, DayStart(num), num), DailyShare(At(Pool(before), BASE_ASSET)), random)
    ensures RewardsPaid(before, after, blocks, num, random, w)
  {
    forall k: Key | !IsPlainBase(k) && k != RewardKey ensures (k in before <==> k in after) && (k in before ==> after[k] == before[k]) {
      assert k in before <==> k in mid;
    }
    assert Unrewarded(after) == Unrewarded(before);
    forall c ensures AmountOf(after, c) == AmountOf(mid, c) {
      assert BalanceKey(c) in mid <==> BalanceKey(c) in after;
    }
    if num % BLOCKS_PER_DAY == 0 {
      var notes, share := NotesBetween(blocks, DayStart(num), num), DailyShare(At(Pool(before), BASE_ASSET));
      forall c ensures AmountOf(mid, c) == AmountOf(before, c) + Prize(w, notes, share, c) {
        if IsPlainBase(BalanceKey(c)) {
          assert c == Plain(c.lock.owner, BASE_ASSET);
          assert BaseBalance(mid, c.lock.owner) == AmountOf(mid, c);
        } else {
          assert BalanceKey(c) in mid <==> BalanceKey(c) in before;
        }
      }
    }
  }

  /** The transactions of a block, evaluated in order, and then the rewards. */
  ghost predicate Transacted(head: Head, before: Books, b: Block, blocks: map<nat, seq<Transaction>>, after: Books) {
    exists w :: TransactedBy(head, before, b, blocks, after, w)
  }

  ghost predicate TransactedBy(head: Head, before: Books, b: Block, blocks: map<nat, seq<Transaction>>, after: Books, w: Winners) {
    && AppliedAll(head, before, b.trxs).Some?
    && var done := AppliedAll(head, before, b.trxs).value;
       && after.lastAccountId == done.lastAccountId && after.lastAssetId == done.lastAssetId
       && RewardsPaid(done.records, after.records, blocks, b.num, b.random, w)
  }

  lemma RewardsKeep(before: Records, after: Records, blocks: map<nat, seq<Transaction>>, num: nat, random: (nat, nat, nat), w: Winners)
    requires RewardsPaid(before, after, blocks, num, random, w)
    ensures SameCounters(before, after) && AccountsStay(before, after) && SameDelegates(before, after)
    ensures ReferenceOf(after) == ReferenceOf(before)
  {
    forall d ensures (AccountKey(d) in before <==> AccountKey(d) in after) && GetAccount(after, d) == GetAccount(before, d) {
      UnrewardedIs(before, AccountKey(d));
      UnrewardedIs(after, AccountKey(d));
    }
    UnrewardedIs(before, ReferenceKey);
    UnrewardedIs(after, ReferenceKey);
  }

  /** Transactions and rewards leave the production counters alone. */
  lemma TransactedKeeps(head: Head, before: Books, b: Block, blocks: map<nat, seq<Transaction>>, after: Books)
    requires Keyed(before.records) && IdsUpTo(before.records, before.lastAccountId) && Transacted(head, before, b, blocks, after)
    ensures SameCounters(before.records, after.records) && AccountsStay(before.records, after.records)
    ensures NoLess(ReferenceOf(before.records), ReferenceOf(after.records))
    ensures RealClaims(b.trxs) ==> ReferenceOf(after.records) == ReferenceOf(before.records)
    ensures b.trxs == [] ==> SameDelegates(before.records, after.records)
  {
    var w :| TransactedBy(head, before, b, blocks, after, w);
    var done := AppliedAll(head, before, b.trxs).value;
    AppliedKeeps(head, before, b.trxs, 0);
    assert b.trxs[..0] == [];
    RewardsKeep(done.records, after.records, blocks, b.num, b.random, w);
    forall d, e ensures Counter(after.records, d, e) == Counter(before.records, d, e) {
      assert Counter(done.records, d, e) == Counter(before.records, d, e);
    }
    forall id | GetAccount(before.records, id).Some?
      ensures GetAccount(after.records, id).Some? && GetAccount(after.records, id).value.name == GetAccount(before.records, id).value.name
              && GetAccount(after.records, id).value.ownerKey == GetAccount(before.records, id).value.ownerKey
    {
      assert GetAccount(done.records, id).Some?;
    }
  }

  lemma PayKeepsDelegates(r: Records, signee: AccountId)
    ensures SameCounters(r, ProducerPaid(r, signee)) && SameDelegates(r, ProducerPaid(r, signee))
    ensures ReferenceOf(ProducerPaid(r, signee)) == ReferenceOf(r)
  {
    var after := ProducerPaid(r, signee);
    forall d, e ensures Counter(after, d, e) == Counter(r, d, e) {
    }
  }

  /** An accepted block charges its slots, and its transactions and rewards leave the charges alone. */
  lemma BlockIsCharged(head: Head, r: Records, before: Books, entry: ChargeEntry, b: Block, blocks: map<nat, seq<Transaction>>, after: Books)
    requires Keyed(r) && IsDelegate(r, entry.signee) && SlotsOwned(r, entry.order, entry.first, entry.missed)
    requires before.records == PreparedBy(r, entry, b.num) && IdsUpTo(r, before.lastAccountId) && Transacted(head, before, b, blocks, after)
    ensures NoLess(Passed(ReferenceOf(r), 1, entry.missed), ReferenceOf(after.records)) && ChargedFor(r, after.records, entry)
    ensures RealClaims(b.trxs) ==> ReferenceOf(after.records) == Passed(ReferenceOf(r), 1, entry.missed)
    ensures b.trxs == [] ==> SameDelegates(r, after.records)
  {
    var charged := WithProduction(r, entry, b.num);
    ProductionIsCharged(r, entry, b.num);
    PayKeepsDelegates(charged, entry.signee);
    PreparedIds(r, entry, b.num, before.lastAccountId);
    TransactedKeeps(head, before, b, blocks, after);
    KeepCharges(r, charged, before.records, entry);
    KeepCharges(r, before.records, after.records, entry);
    DelegatesBoth(r, charged, before.records);
    if b.trxs == [] {
      DelegatesBoth(r, before.records, after.records);
    }
  }

  /** The account that an operation registers is there, with its name and owner key. */
  ghost predicate IsRegistered(r: Records, op: Operation)
    requires op.RegisterOp?
  {
    exists id :: GetAccount(r, id).Some? && GetAccount(r, id).value.name == op.name && GetAccount(r, id).value.ownerKey == op.ownerKey
  }

  /** Every account that the transactions register is there at the end. */
  lemma RegistrationsLast(head: Head, b: Books, trxs: seq<Transaction>, i: nat, j: nat)
    requires Keyed(b.records) && IdsUpTo(b.records, b.lastAccountId) && AppliedAll(head, b, trxs).Some?
    requires i < |trxs| && j < |trxs[i].ops| && trxs[i].ops[j].RegisterOp?
    ensures IsRegistered(AppliedAll(head, b, trxs).value.records, trxs[i].ops[j])
  {
    var t, upTo := trxs[i], trxs[..i + 1];
    AppliedKeeps(head, b, trxs, i + 1);
    AppliedKeeps(head, b, trxs, i);
    AppliedKeeps(head, b, trxs[..i], 0);
    assert upTo[..i] == trxs[..i] && trxs[..i][..0] == [];
    var id := RegistrationLasts(head.ContextOf(t), AppliedAll(head, b, trxs[..i]).value, t.ops, t.baseFees, j);
    assert GetAccount(AppliedAll(head, b, upTo).value.records, id).Some?;
    assert GetAccount(AppliedAll(head, b, trxs).value.records, id).Some?;
  }

  /** Every account that an accepted block registers is there afterwards. */
  lemma BlockRegisters(head: Head, r: Records, before: Books, entry: ChargeEntry, b: Block, blocks: map<nat, seq<Transaction>>,
                       after: Books, i: nat, j: nat)
    requires Keyed(r) && before.records == PreparedBy(r, entry, b.num) && IdsUpTo(r, before.lastAccountId)
    requires Transacted(head, before, b, blocks, after) && i < |b.trxs| && j < |b.trxs[i].ops| && b.trxs[i].ops[j].RegisterOp?
    ensures IsRegistered(after.records, b.trxs[i].ops[j])
  {
    var w :| TransactedBy(head, before, b, blocks, after, w);
    var done := AppliedAll(head, before, b.trxs).value.records;
    PreparedIds(r, entry, b.num, before.lastAccountId);
    RegistrationsLast(head, before, b.trxs, i, j);
    var op := b.trxs[i].ops[j];
    var id :| GetAccount(done, id).Some? && GetAccount(done, id).value.name == op.name && GetAccount(done, id).value.ownerKey == op.ownerKey;
    RewardsKeep(done, after.records, blocks, b.num, b.random, w);
    assert GetAccount(after.records, id).Some?;
  }

  lemma PreparedIds(r: Records, entry: ChargeEntry, num: nat, last: AccountId)
    requires Keyed(r) && IdsUpTo(r, last)
    ensures Keyed(PreparedBy(r, entry, num)) && IdsUpTo(PreparedBy(r, entry, num), last)
  {
    PreparedKeeps(r, entry, num);
  }

  /** Each balance has moved by what the transactions move and, on the first block of a day, by the prizes of those whom
      the random numbers draw. */
  ghost predicate MovedWithPrizes(r: Records, b: Block, blocks: map<nat, seq<Transaction>>, after: Records, w: Winners, pool: int) {
    if b.num % BLOCKS_PER_DAY != 0 then forall c {:trigger AmountOf(after, c)} :: AmountOf(after, c) == AmountOf(r, c) + MovedByTrxs(b.trxs, c)
    else
      && (forall i | DayStart(b.num) <= i < b.num :: i in blocks)
      && var notes := NotesBetween(blocks, DayStart(b.num), b.num);
         && DrawnInOrder(|notes|, b.random, w) && w.InRange(|notes|)
         && forall c {:trigger AmountOf(after, c)} ::
              AmountOf(after, c) == AmountOf(r, c) + MovedByTrxs(b.trxs, c) + Prize(w, notes, DailyShare(pool), c)
  }

  /** An accepted block of deposits and withdrawals in amounts: every balance has moved by its deposits less its withdrawals
      and by the prizes of the day, and the collected fees by the difference, after the producer's pay has left them. */
  lemma BlockMoves(head: Head, r: Records, before: Books, entry: ChargeEntry, b: Block, blocks: map<nat, seq<Transaction>>, after: Books)
    requires Keyed(r) && before.records == PreparedBy(r, entry, b.num) && IdsUpTo(r, before.lastAccountId)
    requires Transacted(head, before, b, blocks, after) && AllTransferTrxs(r, b.trxs)
    ensures exists w :: MovedWithPrizes(r, b, blocks, after.records, w, At(Pool(AppliedAll(head, before, b.trxs).value.records), BASE_ASSET))
    ensures forall a {:trigger CollectedFees(after.records, a)} ::
              CollectedFees(after.records, a) == CollectedFees(before.records, a) + FlowByTrxs(b.trxs, a)
    ensures forall a {:trigger CollectedFees(before.records, a)} | a != BASE_ASSET :: CollectedFees(before.records, a) == CollectedFees(r, a)
  {
    var w :| TransactedBy(head, before, b, blocks, after, w);
    var done := AppliedAll(head, before, b.trxs).value.records;
    PreparedKeeps(r, entry, b.num);
    PreparedIds(r, entry, b.num, before.lastAccountId);
    PreparedTransfers(r, before.records, b.trxs);
    AppliedMoves(head, before, b.trxs);
    PreparedAmounts(r, before.records);
    RewardedAmounts(r, done, b, blocks, after.records, w);
    RewardedFees(done, after.records);
    forall a ensures CollectedFees(after.records, a) == CollectedFees(before.records, a) + FlowByTrxs(b.trxs, a) {
      assert CollectedFees(done, a) == CollectedFees(before.records, a) + FlowByTrxs(b.trxs, a);
    }
  }

  lemma PreparedTransfers(r: Records, before: Records, trxs: seq<Transaction>)
    requires SameIssuers(r, before) && AllTransferTrxs(r, trxs)
    ensures AllTransferTrxs(before, trxs)
  {
    forall i | 0 <= i < |trxs| ensures AllTransfers(before, trxs[i].ops) {
      SameTransfers(r, before, trxs[i].ops);
    }
  }

  lemma PreparedAmounts(r: Records, before: Records)
    requires OnlyProduction(r, before)
    ensures forall c {:trigger AmountOf(before, c)} :: AmountOf(before, c) == AmountOf(r, c)
    ensures forall a {:trigger CollectedFees(before, a)} | a != BASE_ASSET :: CollectedFees(before, a) == CollectedFees(r, a)
  {
    forall a | a != BASE_ASSET ensures CollectedFees(before, a) == CollectedFees(r, a) {
      assert AssetKey(a) in r <==> AssetKey(a) in before;
    }
  }

  lemma RewardedAmounts(r: Records, done: Records, b: Block, blocks: map<nat, seq<Transaction>>, after: Records, w: Winners)
    requires RewardsPaid(done, after, blocks, b.num, b.random, w)
    requires forall c {:trigger MovedByTrxs(b.trxs, c)} :: AmountOf(done, c) == AmountOf(r, c) + MovedByTrxs(b.trxs, c)
    ensures MovedWithPrizes(r, b, blocks, after, w, At(Pool(done), BASE_ASSET))
  {
    forall c ensures AmountOf(done, c) == AmountOf(r, c) + MovedByTrxs(b.trxs, c) {
    }
  }

  lemma RewardedFees(done: Records, after: Records)
    requires Unrewarded(after) == Unrewarded(done)
    ensures forall a {:trigger CollectedFees(after, a)} :: CollectedFees(after, a) == CollectedFees(done, a)
  {
    forall a ensures CollectedFees(after, a) == CollectedFees(done, a) {
      UnrewardedIs(done, AssetKey(a));
      UnrewardedIs(after, AssetKey(a));
    }
  }

  /** As many slots have passed as there are from the first block to the head. */
  predicate AccountedFor(slots: nat, headNum: nat, first: Time, head: Time) {
    if headNum == 0 then slots == 0 else first <= head && slots == 1 + (head - first) / BLOCK_INTERVAL
  }

  /** One more block, with the slots it passes over: the exact condition for the account to stay right. */
  lemma AccountedNext(slots: nat, headNum: nat, first: Time, head: Time, num: nat, timestamp: Time)
    requires AccountedFor(slots, headNum, first, head)
    requires first % BLOCK_INTERVAL == 0 && head % BLOCK_INTERVAL == 0 && timestamp % BLOCK_INTERVAL == 0
    ensures var missed := if headNum == 0 then 0 else MissedSlots(head, timestamp);
            missed >= 0 &&
            (AccountedFor(slots + 1 + missed, num, if headNum == 0 then timestamp else first, timestamp) <==>
             num > 0 && (headNum == 0 || timestamp > head))
  {
    if headNum > 0 {
      SlotsAdd(first, head, timestamp);
    }
  }

  lemma SlotsAdd(first: Time, head: Time, timestamp: Time)
    requires first % BLOCK_INTERVAL == 0 && head % BLOCK_INTERVAL == 0 && timestamp % BLOCK_INTERVAL == 0 && first <= head
    ensures MissedSlots(head, timestamp) >= 0
    ensures timestamp > head ==>
              (head - first) / BLOCK_INTERVAL + 1 + MissedSlots(head, timestamp) == (timestamp - first) / BLOCK_INTERVAL
    ensures first <= timestamp <= head ==> (timestamp - first) / BLOCK_INTERVAL <= (head - first) / BLOCK_INTERVAL
  {
  }

  /** Only the first block of a chain is numbered one. */
  ghost predicate Numbered(headNum: nat, blocks: seq<Block>) {
    forall i | 0 <= i < |blocks| :: blocks[i].num > 1 || (blocks[i].num == 1 && i == 0 && headNum == 0)
  }

  function LogCount(log: seq<ChargeEntry>, d: AccountId, duty: Duty): nat {
    if log == [] then 0 else LogCount(log[..|log| - 1], d, duty) + log[|log| - 1].Count(d, duty)
  }

  /** Every counter has grown by what the log says. */
  ghost predicate LogMatches(start: Records, now: Records, log: seq<ChargeEntry>) {
    forall d, e {:trigger Counter(now, d, e)} :: Counter(now, d, e) == Counter(start, d, e) + LogCount(log, d, e)
  }

  lemma LogNext(log: seq<ChargeEntry>, entry: ChargeEntry, start: Records, before: Records, after: Records)
    requires LogMatches(start, before, log)
    requires ChargedFor(before, after, entry)
    ensures LogMatches(start, after, log + [entry])
  {
    assert (log + [entry])[..|log|] == log;
    forall d, e ensures Counter(after, d, e) == Counter(start, d, e) + LogCount(log + [entry], d, e) {
      assert e == Produced || e == Missed;
      assert Counter(before, d, e) == Counter(start, d, e) + LogCount(log, d, e);
    }
  }

  /** The signing key of the expected delegate belongs to nobody else. */
  lemma SignerIsExpected(r: Records, expected: AccountId, signee: AccountId)
    requires KeysUnique(r) && IsDelegate(r, expected) && GetAccount(r, expected).value.SigningKey() != NULL_KEY
    requires OwnsKey(r, signee, GetAccount(r, expected).value.SigningKey())
    ensures signee == expected
  {
    var h := GetAccount(r, expected).value.delegate.value.signingKeys;
    assert h[|h| - 1].1 in KeysOf(h);
    assert OwnsKey(r, expected, GetAccount(r, expected).value.SigningKey());
  }

  lemma SignerIsFound(r: Records, expected: AccountId)
    requires IsDelegate(r, expected) && GetAccount(r, expected).value.SigningKey() != NULL_KEY
    ensures KeyTaken(r, GetAccount(r, expected).value.SigningKey())
  {
    var h := GetAccount(r, expected).value.delegate.value.signingKeys;
    assert h[|h| - 1].1 in KeysOf(h);
    assert AccountKey(expected) in r && OwnsKey(r, AccountKey(expected).account, h[|h| - 1].1);
  }

  class ChainState {
    const slateId: set<AccountId> -> SlateId
    const skipSignatures: bool

    var records: Records
    var lastAccountId: AccountId
    var lastAssetId: AssetId
    var active: seq<AccountId>
    var headNum: nat
    var headTime: Time
    var firstTime: Time
    /** The transactions of the blocks of the chain, by number. */
    var blocks: map<nat, seq<Transaction>>

    ghost predicate Valid()
      reads this
    {
      && Sound(records, map[], map[])
      && IdsUpTo(records, lastAccountId)
      && headTime % BLOCK_INTERVAL == 0 && firstTime % BLOCK_INTERVAL == 0
    }

    /** The slots from the first block to the head have all passed, each exactly once. */
    ghost predicate Accounted()
      reads this
    {
      AccountedBefore(records)
    }

    ghost predicate AccountedBefore(r: Records)
      reads this
    {
      AccountedFor(ReferenceOf(r).produced + ReferenceOf(r).missed, headNum, firstTime, headTime)
    }

    /** A chain without blocks, over the records of its genesis. */
    constructor (slateId: set<AccountId> -> SlateId, skipSignatures: bool, records: Records, lastAccountId: AccountId, lastAssetId: AssetId,
                 active: seq<AccountId>)
      requires Sound(records, map[], map[]) && IdsUpTo(records, lastAccountId)
      requires ReferenceOf(records).produced == ReferenceOf(records).missed == 0
      ensures Valid() && Accounted() && this.records == records && this.active == active && headNum == 0
    {
      this.slateId, this.skipSignatures := slateId, skipSignatures;
      this.records, this.lastAccountId, this.lastAssetId, this.active := records, lastAccountId, lastAssetId, active;
      headNum, headTime, firstTime, blocks := 0, 0, 0, map[];
    }

    /* ---------------------------------------------------------------- production */

    method ChargeSlot(id: AccountId, duty: Duty, lastBlock: nat)
      requires Sound(records, map[], map[]) && IsDelegate(records, id)
      modifies this`records
      ensures Sound(records, map[], map[]) && records == SlotCharged(old(records), id, duty, lastBlock)
    {
      assert RecordOk(records, AccountKey(id));
      var acc := GetAccount(records, id).value;
      var info := ChargedSlot(acc.delegate.value, duty).(lastBlockProduced := lastBlock);
      PutCharge(records, map[], map[], acc, duty, lastBlock);
      var slots := CountedSlot(ReferenceOf(records), duty);
      records := records[AccountKey(id) := AccountRecord(acc.(delegate := Some(info)))];
      records := records[ReferenceKey := ReferenceRecord(slots)];
    }

    /** The slots that a block passes over. */
    function MissedHere(timestamp: Time): (n: nat)
      requires headTime % BLOCK_INTERVAL == 0 && timestamp % BLOCK_INTERVAL == 0
      reads this
    {
      if headNum == 0 || timestamp <= headTime then 0 else (timestamp - headTime) / BLOCK_INTERVAL - 1
    }

    /** Charges the block to its producer and every slot passed over to the delegate whose turn it was. */
    method UpdateProductionInfo(num: nat, timestamp: Time, signee: AccountId) returns (ok: bool, ghost entry: ChargeEntry)
      requires Valid() && timestamp % BLOCK_INTERVAL == 0
      modifies this`records
      ensures entry == ChargeEntry(active, headTime + BLOCK_INTERVAL, MissedHere(timestamp), signee)
      ensures ok <==> IsDelegate(old(records), signee) && SlotsOwned(old(records), entry.order, entry.first, entry.missed)
      ensures ok ==> Valid() && records == WithProduction(old(records), entry, num)
      ensures ok ==> ReferenceOf(records) == Passed(ReferenceOf(old(records)), 1, entry.missed) && SameDelegates(old(records), records)
      ensures ok ==> ChargedFor(old(records), records, entry)
    {
      entry := ChargeEntry(active, headTime + BLOCK_INTERVAL, MissedHere(timestamp), signee);
      if !IsDelegate(records, signee) {
        return false, entry;
      }
      ChargeSlot(signee, Produced, num);
      ok := ChargePassed(timestamp, old(records), signee, num);
      if ok {
        ProductionIsCharged(old(records), entry, num);
      }
    }

    /** Charges the slots passed over, after the block itself. */
    method ChargePassed(timestamp: Time, ghost before: Records, ghost signee: AccountId, ghost num: nat) returns (ok: bool)
      requires Valid() && timestamp % BLOCK_INTERVAL == 0
      requires IsDelegate(before, signee) && records == SlotCharged(before, signee, Produced, num)
      modifies this`records
      ensures ok <==> SlotsOwned(before, active, headTime + BLOCK_INTERVAL, MissedHere(timestamp))
      ensures ok ==> Valid() && records == TurnsCharged(old(records), active, headTime + BLOCK_INTERVAL, MissedHere(timestamp))
    {
      SlotIsCharged(before, signee, Produced, num);
      SlotsOwnedSame(before, records, active, headTime + BLOCK_INTERVAL, MissedHere(timestamp));
      if headNum > 0 {
        ghost var missed;
        ok, missed := ChargeMissed(timestamp);
      } else {
        ok := true;
      }
    }

    method ChargeMissed(timestamp: Time) returns (ok: bool, ghost missed: nat)
      requires Valid() && timestamp % BLOCK_INTERVAL == 0 && headNum > 0
      modifies this`records
      ensures missed == MissedHere(timestamp)
      ensures ok <==> SlotsOwned(old(records), active, headTime + BLOCK_INTERVAL, missed)
      ensures ok ==> Valid() && records == TurnsCharged(old(records), active, headTime + BLOCK_INTERVAL, missed)
    {
      var slot: Time := headTime + BLOCK_INTERVAL;
      ghost var first := headTime + BLOCK_INTERVAL;
      ghost var n: nat := 0;
      missed := MissedHere(timestamp);
      SlotsPassed(headTime, timestamp, 0);
      while slot < timestamp
        invariant slot == Later(first, n) && n <= missed && (slot < timestamp <==> n < missed)
        invariant Valid() && SlotsOwned(old(records), active, first, n) && records == TurnsCharged(old(records), active, first, n)
        decreases timestamp - slot
      {
        TurnsKeepOwner(old(records), active, first, n);
        ok := ChargeTurn(slot);
        if !ok {
          SlotNotOwned(old(records), active, first, n, missed);
          return;
        }
        SlotsPassed(headTime, timestamp, n + 1);
        n := n + 1;
        slot := slot + BLOCK_INTERVAL;
      }
      ok := true;
    }

    /** Charges one slot to the delegate whose turn it was. */
    method ChargeTurn(slot: Time) returns (ok: bool)
      requires Sound(records, map[], map[]) && IdsUpTo(records, lastAccountId)
      modifies this`records
      ensures ok <==> SlotOwned(old(records), active, slot)
      ensures ok ==> Sound(records, map[], map[]) && IdsUpTo(records, lastAccountId) && records == TurnCharged(old(records), active, slot)
    {
      var id := SlotSignee(slot, active);
      if id.None? || !IsDelegate(records, id.value) {
        return false;
      }
      ChargeSlot(id.value, Missed, GetAccount(records, id.value).value.delegate.value.lastBlockProduced);
      ok := true;
    }

    /* ---------------------------------------------------------------- pay */

    /** Pays the producer its rate of a block's share, once in new shares and once out of the collected fees;
        the rest of the fee share is destroyed. The fees are never overdrawn. */
    method PayDelegate(signee: AccountId) returns (ok: bool)
      requires Sound(records, map[], map[])
      modifies this`records
      ensures ok <==> GoodRate(old(records), signee)
      ensures ok ==> Sound(records, map[], map[]) && SameKeys(old(records), records) && IsDelegate(old(records), signee)
      ensures ok ==> SameDelegates(old(records), records) && records == ProducerPaid(old(records), signee)
      ensures ok ==>
                var max, accepted := MaxPayPerBlock(old(records)), AcceptedPay(old(records), signee);
                && PaidAtRate(CollectedFees(old(records), BASE_ASSET), TermsOf(old(records), signee).value.0, max, accepted)
                && Supply(records, BASE_ASSET) == Supply(old(records), BASE_ASSET) + accepted - (max - accepted)
                && PayOf(records, signee) == PayOf(old(records), signee) + accepted + accepted
                && CollectedFees(records, BASE_ASSET) == CollectedFees(old(records), BASE_ASSET) - max
    {
      if !IsDelegate(records, signee) || GetAccount(records, signee).value.delegate.value.payRate > 100 {
        return false;
      }
      assert RecordOk(records, AssetKey(BASE_ASSET));
      PayIsAtRate(records, signee);
      Pay(signee, MaxPayPerBlock(records), AcceptedPay(records, signee));
      ok := true;
    }

    method Pay(signee: AccountId, max: int, accepted: int)
      requires Sound(records, map[], map[]) && IsDelegate(records, signee)
      requires 0 <= accepted <= max <= CollectedFees(records, BASE_ASSET)
      modifies this`records
      ensures Sound(records, map[], map[]) && SameKeys(old(records), records)
      ensures Supply(records, BASE_ASSET) == Supply(old(records), BASE_ASSET) + accepted - (max - accepted)
      ensures PayOf(records, signee) == PayOf(old(records), signee) + accepted + accepted
      ensures CollectedFees(records, BASE_ASSET) == CollectedFees(old(records), BASE_ASSET) - max
      ensures SameDelegates(old(records), records)
      ensures records == FeesTaken(PayAdded(old(records), signee, accepted + accepted), max, accepted - (max - accepted))
    {
      assert RecordOk(records, AssetKey(BASE_ASSET));
      AddPay(signee, accepted + accepted);
      ghost var total := Add(map[], BASE_ASSET, -(accepted + accepted));
      TakeFees(max, accepted - (max - accepted), total);
      SameTotals(records, Add(total, BASE_ASSET, accepted - (max - accepted) + max), map[], map[]);
    }

    /** A paycheck counts as votes for the delegate as long as it is not withdrawn. */
    method AddPay(id: AccountId, amount: int)
      requires Sound(records, map[], map[]) && IsDelegate(records, id) && amount >= 0
      modifies this`records
      ensures Sound(records, Add(map[], BASE_ASSET, -amount), map[]) && SameKeys(old(records), records)
      ensures GetAsset(records, BASE_ASSET) == GetAsset(old(records), BASE_ASSET)
      ensures PayOf(records, id) == PayOf(old(records), id) + amount && SameDelegates(old(records), records)
      ensures records == PayAdded(old(records), id, amount)
    {
      assert RecordOk(records, AccountKey(id));
      var acc := GetAccount(records, id).value;
      var info := acc.delegate.value;
      info := info.(votesFor := info.votesFor + amount, payBalance := info.payBalance + amount, totalPaid := info.totalPaid + amount);
      OwnKeysAvailable(records, acc.(delegate := Some(info)));
      PutAccount(records, map[], map[], acc.(delegate := Some(info)), 0);
      records := records[AccountKey(id) := AccountRecord(acc.(delegate := Some(info)))];
    }

    /** Takes base fees out of the collected ones, and changes the supply. */
    method TakeFees(amount: int, issued: int, ghost total: map<AssetId, int>)
      requires Sound(records, total, map[]) && GetAsset(records, BASE_ASSET).Some?
      requires amount <= CollectedFees(records, BASE_ASSET)
      modifies this`records
      ensures Sound(records, Add(total, BASE_ASSET, issued + amount), map[]) && SameKeys(old(records), records)
      ensures Supply(records, BASE_ASSET) == Supply(old(records), BASE_ASSET) + issued && GetAsset(records, BASE_ASSET).Some?
      ensures CollectedFees(records, BASE_ASSET) == CollectedFees(old(records), BASE_ASSET) - amount
      ensures (forall d :: PayOf(records, d) == PayOf(old(records), d)) && SameDelegates(old(records), records)
      ensures records == FeesTaken(old(records), amount, issued)
    {
      assert RecordOk(records, AssetKey(BASE_ASSET));
      var asset := GetAsset(records, BASE_ASSET).value;
      var asset' := asset.(currentSupply := asset.currentSupply + issued, collectedFees := asset.collectedFees - amount);
      PutAssetFees(records, total, map[], asset, asset');
      records := records[AssetKey(BASE_ASSET) := AssetRecord(asset')];
    }

    /* ---------------------------------------------------------------- note rewards */

    method PayWinner(owner: Address, amount: int, ghost total: map<AssetId, int>)
      requires Sound(records, total, map[]) && amount >= 0
      modifies this`records
      ensures Sound(records, Add(total, BASE_ASSET, -amount), map[]) && OnlyBalances(old(records), records)
      ensures forall o {:trigger BaseBalance(records, o)} ::
                BaseBalance(records, o) == BaseBalance(old(records), o) + (if o == owner then amount else 0)
    {
      var b := Credited(records, Plain(owner, BASE_ASSET), amount, headTime);
      PutCredit(records, total, map[], owner, BASE_ASSET, amount, headTime);
      records := records[BalanceKey(b.condition) := BalanceRecord(b)];
    }

    /** Pays every winner of a level. */
    method PayLevel(winners: seq<nat>, notes: seq<Address>, amount: int, ghost total: map<AssetId, int>) returns (paid: int)
      requires Sound(records, total, map[]) && amount >= 0 && forall i | 0 <= i < |winners| :: winners[i] < |notes|
      modifies this`records
      ensures paid == Times(|winners|, amount) && Sound(records, Add(total, BASE_ASSET, -paid), map[])
      ensures OnlyBalances(old(records), records)
      ensures forall o {:trigger BaseBalance(records, o)} ::
                BaseBalance(records, o) == BaseBalance(old(records), o) + PaidTo(winners, notes, o, amount)
    {
      paid := 0;
      SameTotals(records, total, Add(total, BASE_ASSET, 0), map[]);
      for i := 0 to |winners|
        invariant paid == Times(i, amount) && Sound(records, Add(total, BASE_ASSET, -paid), map[])
        invariant LevelPaid(old(records), records, winners, i, notes, amount)
      {
        ghost var mid := records;
        PayWinner(notes[winners[i]], amount, Add(total, BASE_ASSET, -paid));
        LevelNext(old(records), mid, records, winners, i, notes, amount);
        AddTwice(total, BASE_ASSET, -paid, -amount);
        paid := paid + amount;
      }
      assert winners[..|winners|] == winners;
    }

    /** The notes of the day that ends before block `num`; none when a block of it is missing. */
    method CollectNotes(num: nat) returns (notes: Option<seq<Address>>)
      ensures notes.Some? <==> forall i | DayStart(num) <= i < num :: i in blocks
      ensures notes.Some? ==> notes.value == NotesBetween(blocks, DayStart(num), num)
    {
      var found: seq<Address> := [];
      var i := DayStart(num);
      while i < num
        invariant DayStart(num) <= i && (i <= num || i == DayStart(num))
        invariant forall j | DayStart(num) <= j < i :: j in blocks
        invariant found == NotesBetween(blocks, DayStart(num), i)
      {
        if i !in blocks {
          return None;
        }
        found := found + NotesOf(blocks[i]);
        i := i + 1;
      }
      assert i == num;
      notes := Some(found);
    }

    /** Once a day pays a fourteenth of the note pool, at most, to the winners of the day: every owner gets what
        the notes of that owner have won. */
    method PayOperationRewards(num: nat, random: (nat, nat, nat)) returns (ok: bool, paid: int, ghost w: Winners)
      requires Valid()
      modifies this`records
      ensures ok <==> RewardsDue(blocks, num)
      ensures ok ==> Valid()
      ensures ok ==> Pool(records) == Add(Pool(old(records)), BASE_ASSET, -paid)
      ensures ok ==> 0 <= paid <= DailyShare(At(Pool(old(records)), BASE_ASSET)) <= At(Pool(old(records)), BASE_ASSET)
      ensures ok && num % BLOCKS_PER_DAY != 0 ==> paid == 0
      ensures ok ==> RewardsPaid(old(records), records, blocks, num, random, w)
    {
      assert RecordOk(records, RewardKey);
      var share := DailyShare(At(Pool(records), BASE_ASSET));
      DailyShareIsPart(At(Pool(records), BASE_ASSET));
      ok, paid, w := PayDue(num, share, random);
      if !ok {
        return;
      }
      ghost var mid := records;
      TakeFromPool(paid);
      RewardedIsPaid(old(records), mid, records, blocks, num, random, w);
      ok := true;
    }

    /** Pays the winners when a day has ended. */
    method PayDue(num: nat, share: int, random: (nat, nat, nat)) returns (ok: bool, paid: int, ghost w: Winners)
      requires Valid() && share >= 0
      modifies this`records
      ensures ok <==> RewardsDue(blocks, num)
      ensures ok ==> Sound(records, Add(map[], BASE_ASSET, -paid), map[]) && 0 <= paid <= share && OnlyBalances(old(records), records)
      ensures ok && num % BLOCKS_PER_DAY != 0 ==> paid == 0 && records == old(records)
      ensures ok && num % BLOCKS_PER_DAY == 0 ==> Rewarded(old(records), records, w, NotesBetween(blocks, DayStart(num), num), share, random)
    {
      if num % BLOCKS_PER_DAY == 0 {
        ok, paid, w := PayDay(num, share, random);
      } else {
        SameTotals(records, map[], Add(map[], BASE_ASSET, 0), map[]);
        ok, paid, w := true, 0, Winners([], [], []);
      }
    }

    /** Collects the notes of the day and pays their winners. */
    method PayDay(num: nat, share: int, random: (nat, nat, nat)) returns (ok: bool, paid: int, ghost w: Winners)
      requires Valid() && share >= 0
      modifies this`records
      ensures ok ==> Sound(records, Add(map[], BASE_ASSET, -paid), map[]) && 0 <= paid <= share
      ensures ok ==> OnlyBalances(old(records), records) && forall i | DayStart(num) <= i < num :: i in blocks
      ensures ok ==> Rewarded(old(records), records, w, NotesBetween(blocks, DayStart(num), num), share, random)
      ensures num % BLOCKS_PER_DAY == 0 ==> (ok <==> RewardsDue(blocks, num))
    {
      var notes := CollectNotes(num);
      if notes.None? {
        return false, 0, Winners([], [], []);
      }
      ok, paid, w := PayWinners(share, notes.value, random);
    }

    method PayWinners(share: int, notes: seq<Address>, random: (nat, nat, nat)) returns (ok: bool, paid: int, ghost w: Winners)
      requires Valid() && share >= 0
      modifies this`records
      ensures ok ==> Sound(records, Add(map[], BASE_ASSET, -paid), map[]) && 0 <= paid <= share
      ensures ok ==> OnlyBalances(old(records), records) && Rewarded(old(records), records, w, notes, share, random)
      ensures ok <==> CanPick(|notes|)
    {
      paid, w := 0, Winners([], [], []);
      var picked := PickWinners(|notes|, random);
      if picked.None? {
        return false, 0, w;
      }
      w := picked.value;
      picked.value.PartsBelow(|notes|);
      RewardsFitShare(share, |picked.value.first|, |picked.value.second|, |picked.value.third|);
      paid := PayLevels(picked.value, notes, Reward(share, 0), Reward(share, 1), Reward(share, 2));
      ok := true;
    }

    method PayLevels(w: Winners, notes: seq<Address>, first: int, second: int, third: int) returns (paid: int)
      requires Sound(records, map[], map[]) && first >= 0 && second >= 0 && third >= 0 && w.InRange(|notes|)
      modifies this`records
      ensures paid == Times(|w.first|, first) + Times(|w.second|, second) + Times(|w.third|, third)
      ensures Sound(records, Add(map[], BASE_ASSET, -paid), map[])
      ensures OnlyBalances(old(records), records)
      ensures forall o {:trigger BaseBalance(records, o)} ::
                BaseBalance(records, o) == BaseBalance(old(records), o) + Won(w, notes, o, first, second, third)
    {
      paid := PayLevel(w.first, notes, first, map[]);
      var more := PayLevel(w.second, notes, second, Add(map[], BASE_ASSET, -paid));
      AddTwice(map[], BASE_ASSET, -paid, -more);
      paid := paid + more;
      more := PayLevel(w.third, notes, third, Add(map[], BASE_ASSET, -paid));
      AddTwice(map[], BASE_ASSET, -paid, -more);
      paid := paid + more;
    }

    method TakeFromPool(paid: int)
      requires Sound(records, Add(map[], BASE_ASSET, -paid), map[]) && paid <= At(Pool(records), BASE_ASSET)
      modifies this`records
      ensures Sound(records, map[], map[]) && records == old(records)[RewardKey := RewardRecord(Add(Pool(old(records)), BASE_ASSET, -paid))]
    {
      assert RecordOk(records, RewardKey);
      PutReward(records, Add(map[], BASE_ASSET, -paid), map[], BASE_ASSET, -paid);
      records := records[RewardKey := RewardRecord(Add(Pool(records), BASE_ASSET, -paid))];
      AddTwice(map[], BASE_ASSET, -paid, paid);
      SameTotals(records, Add(map[], BASE_ASSET, 0), map[], map[]);
    }

    /* ---------------------------------------------------------------- whole blocks */

    function HeadNow(): Head
      reads this
    {
      Head(headTime, headNum, skipSignatures, slateId)
    }

    function BooksNow(): Books
      reads this
    {
      Books(records, lastAccountId, lastAssetId)
    }

    /** Evaluates the transactions of a block in order; the first one refused stops it. */
    method ApplyTransactions(trxs: seq<Transaction>) returns (error: Outcome)
      requires Valid()
      modifies this`records, this`lastAccountId, this`lastAssetId
      ensures error.None? <==> AppliedAll(HeadNow(), old(BooksNow()), trxs).Some?
      ensures error.None? ==> Valid() && BooksNow() == AppliedAll(HeadNow(), old(BooksNow()), trxs).value
    {
      error := None;
      for i := 0 to |trxs|
        invariant error.None? && Valid() && AppliedAll(HeadNow(), old(BooksNow()), trxs[..i]) == Some(BooksNow())
      {
        assert trxs[..i + 1][..i] == trxs[..i];
        error := ApplyTransaction(trxs[i]);
        if error.Some? {
          AppliedStops(HeadNow(), old(BooksNow()), trxs, i + 1);
          return;
        }
      }
      assert trxs[..|trxs|] == trxs;
    }

    method ApplyTransaction(t: Transaction) returns (error: Outcome)
      requires Valid()
      modifies this`records, this`lastAccountId, this`lastAssetId
      ensures error.None? <==> Evaluated(HeadNow().ContextOf(t), old(BooksNow()), t.ops, t.baseFees).Some?
      ensures error.None? ==> Valid() && BooksNow() == Evaluated(HeadNow().ContextOf(t), old(BooksNow()), t.ops, t.baseFees).value
    {
      var evaluation := new TransactionEvaluation(HeadNow().ContextOf(t), records, lastAccountId, lastAssetId);
      error := evaluation.Evaluate(t.ops, t.baseFees);
      if error.None? {
        records, lastAccountId, lastAssetId := evaluation.records, evaluation.lastAccountId, evaluation.lastAssetId;
      }
    }

    /** At the end of a round the highest delegates of the given records become active, in a random order. */
    method UpdateActiveDelegates(num: nat, r: Records, draws: nat -> nat)
      requires RecordsOk(r)
      modifies this`active
      ensures num % NUM_DELEGATES != 0 ==> active == old(active)
      ensures num % NUM_DELEGATES == 0 ==> exists top :: IsTop(r, top) && active == Shuffled(top, Drawn(draws, |top|))
      ensures num % NUM_DELEGATES == 0 ==> TopByVotes(r, active)
      ensures Distinct(old(active)) ==> Distinct(active)
    {
      if num % NUM_DELEGATES == 0 {
        var top := AccountIndex.PageOf(VotesOf(r), 0, NUM_DELEGATES);
        assert IsTop(r, top);
        TopIsTrue(r, top);
        var order := new AccountId[|top|](i requires 0 <= i < |top| => top[i]);
        assert order[..] == top;
        Shuffle(order, Drawn(draws, |top|));
        active := order[..];
        ShuffledIsTop(r, top, active);
      }
    }

    /** Why a block is refused before anything is changed. */
    predicate HeaderRefused(b: Block)
      reads this
    {
      var expected := SlotSignee(b.timestamp, active);
      || !b.checked
      || (b.num > 1 && b.num != headNum + 1)
      || b.timestamp % BLOCK_INTERVAL != 0
      || (b.num > 1 && b.timestamp <= headTime)
      || expected.None? || !IsDelegate(records, expected.value)
      || GetAccount(records, expected.value).value.SigningKey() != b.signeeKey
    }

    /** What a block needs to be accepted, apart from its transactions: it passes the header checks, the slots it passes
        over belong to delegates, its producer has a pay rate of at most 100, and its rewards can be drawn. */
    predicate Acceptable(b: Block)
      requires headTime % BLOCK_INTERVAL == 0
      reads this
    {
      && !HeaderRefused(b)
      && SlotsOwned(records, active, headTime + BLOCK_INTERVAL, MissedHere(b.timestamp))
      && GoodRate(records, SlotSignee(b.timestamp, active).value)
      && RewardsDue(blocks, b.num)
    }

    /** What a block charges: the block to its signer, and the slots it passes over to those whose turns they were. */
    function EntryFor(b: Block): ChargeEntry
      requires headTime % BLOCK_INTERVAL == 0 && !HeaderRefused(b)
      reads this
    {
      ChargeEntry(active, headTime + BLOCK_INTERVAL, MissedHere(b.timestamp), SlotSignee(b.timestamp, active).value)
    }

    /** The books that the transactions of a block start from, with its slots charged and its producer paid. */
    function PreparedFor(b: Block): Books
      requires headTime % BLOCK_INTERVAL == 0 && !HeaderRefused(b)
      reads this
    {
      BooksNow().(records := PreparedBy(records, EntryFor(b), b.num))
    }

    /** Acceptable, and none of the transactions is refused. */
    predicate Accepted(b: Block)
      requires headTime % BLOCK_INTERVAL == 0
      reads this
    {
      Acceptable(b) && AppliedAll(HeadNow(), PreparedFor(b), b.trxs).Some?
    }

    /** The account found under the address of a key. */
    method FindByKey(key: Address) returns (id: Option<AccountId>)
      ensures id.Some? ==> OwnsKey(records, id.value, key)
      ensures id.None? <==> !KeyTaken(records, key)
    {
      if k: Key :| k in records && k.AccountKey? && OwnsKey(records, k.account, key) {
        id := Some(k.account);
      } else {
        id := None;
      }
    }

    /** Extends the chain by a block. A block that is accepted leaves sound records, and one that is refused
        leaves the state alone. The block is charged to the delegate whose turn it was, and every slot passed over to
        the delegate whose turn that was. The slots stay accounted for exactly when the block is numbered from one
        and, unless it is the first, later than the head; for a number above one the header check makes sure of it. */
    method Extend(b: Block) returns (ok: bool, ghost entry: ChargeEntry)
      requires Valid() && b.signeeKey != NULL_KEY
      modifies this
      ensures Valid()
      ensures (ok <==> old(Accepted(b))) && (b.trxs == [] ==> (ok <==> old(Acceptable(b))))
      ensures ok ==> Transacted(old(HeadNow()), old(PreparedFor(b)), b, old(blocks), BooksNow())
      ensures b.trxs == [] && ok ==> SameDelegates(old(records), records)
      ensures !ok ==> records == old(records) && headNum == old(headNum) && headTime == old(headTime) && firstTime == old(firstTime)
      ensures !ok ==> active == old(active) && blocks == old(blocks) && lastAccountId == old(lastAccountId) && lastAssetId == old(lastAssetId)
      ensures ok ==> headNum == b.num && headTime == b.timestamp && (b.num <= 1 || (b.num == old(headNum) + 1 && b.timestamp > old(headTime)))
      ensures ok ==> ReferenceOf(records).produced == ReferenceOf(old(records)).produced + 1
      ensures ok ==> SlotSignee(b.timestamp, old(active)).Some?
      ensures ok ==> entry == ChargeEntry(old(active), old(headTime) + BLOCK_INTERVAL,
                                          if old(headNum) == 0 then 0 else MissedSlots(old(headTime), b.timestamp),
                                          SlotSignee(b.timestamp, old(active)).value)
      ensures ok ==> ChargedFor(old(records), records, entry)
      ensures ok && RealClaims(b.trxs) ==> ReferenceOf(records).paidTwice == ReferenceOf(old(records)).paidTwice
      ensures ok && old(Accounted()) ==> (Accounted() <==> b.num > 0 && (old(headNum) == 0 || b.timestamp > old(headTime)))
      ensures ok && b.num % NUM_DELEGATES != 0 ==> active == old(active)
      ensures ok && b.num % NUM_DELEGATES == 0 ==> exists top :: IsTop(old(records), top) && active == Shuffled(top, Drawn(b.draws, |top|))
      ensures ok && b.num % NUM_DELEGATES == 0 ==> TopByVotes(old(records), active)
      ensures Distinct(old(active)) ==> Distinct(active)
    {
      var before := records;
      ok, entry := TryBlock(b);
      if !ok {
        return;
      }
      Advance(b, before, entry.missed);
    }

    /** Moves on to a block whose changes have been made; `before` are the records from before it. */
    method Advance(b: Block, before: Records, ghost missed: nat)
      requires Sound(before, map[], map[]) && Valid() && b.timestamp % BLOCK_INTERVAL == 0
      requires missed == if headNum == 0 then 0 else MissedSlots(headTime, b.timestamp)
      requires NoLess(Passed(ReferenceOf(before), 1, missed), ReferenceOf(records))
      modifies this`active, this`headNum, this`headTime, this`firstTime, this`blocks
      ensures Valid() && headNum == b.num && headTime == b.timestamp
      ensures old(AccountedBefore(before)) ==> (Accounted() <==> b.num > 0 && (old(headNum) == 0 || b.timestamp > old(headTime)))
      ensures b.num % NUM_DELEGATES != 0 ==> active == old(active)
      ensures b.num % NUM_DELEGATES == 0 ==> exists top :: IsTop(before, top) && active == Shuffled(top, Drawn(b.draws, |top|))
      ensures b.num % NUM_DELEGATES == 0 ==> TopByVotes(before, active)
      ensures Distinct(old(active)) ==> Distinct(active)
    {
      UpdateActiveDelegates(b.num, before, b.draws);
      if old(AccountedBefore(before)) {
        AccountedNext(ReferenceOf(before).produced + ReferenceOf(before).missed, headNum, firstTime, headTime, b.num, b.timestamp);
      }
      MoveHead(b);
    }

    /** Applies the changes of a block to the records, or leaves them alone. */
    method TryBlock(b: Block) returns (ok: bool, ghost entry: ChargeEntry)
      requires Valid() && b.signeeKey != NULL_KEY
      modifies this`records, this`lastAccountId, this`lastAssetId
      ensures Valid() && (ok <==> old(Accepted(b))) && (b.trxs == [] ==> (ok <==> old(Acceptable(b))))
      ensures ok ==> entry == old(EntryFor(b)) && Transacted(HeadNow(), old(PreparedFor(b)), b, blocks, BooksNow())
      ensures b.trxs == [] && ok ==> SameDelegates(old(records), records)
      ensures !ok ==> records == old(records) && lastAccountId == old(lastAccountId) && lastAssetId == old(lastAssetId)
      ensures ok ==> NoLess(Passed(ReferenceOf(old(records)), 1, entry.missed), ReferenceOf(records)) && ChargedFor(old(records), records, entry)
      ensures ok && RealClaims(b.trxs) ==> ReferenceOf(records) == Passed(ReferenceOf(old(records)), 1, entry.missed)
    {
      if HeaderRefused(b) {
        return false, ChargeEntry([], 0, 0, 0);
      }
      var saved := (records, lastAccountId, lastAssetId);
      entry := EntryFor(b);
      ok := ApplyBlock(b, PreparedFor(b), entry);
      if !ok {
        records, lastAccountId, lastAssetId := saved.0, saved.1, saved.2;
      }
    }

    method MoveHead(b: Block)
      modifies this`headNum, this`headTime, this`firstTime, this`blocks
      ensures headNum == b.num && headTime == b.timestamp && blocks == old(blocks)[b.num := b.trxs]
      ensures firstTime == if old(headNum) == 0 then b.timestamp else old(firstTime)
    {
      if headNum == 0 {
        firstTime := b.timestamp;
      }
      headNum, headTime, blocks := b.num, b.timestamp, blocks[b.num := b.trxs];
    }

    /** The changes of a block to the records; its transactions start from the books `prepared`. */
    method ApplyBlock(b: Block, ghost prepared: Books, ghost entry: ChargeEntry) returns (ok: bool)
      requires Valid() && b.signeeKey != NULL_KEY && !HeaderRefused(b) && prepared == PreparedFor(b) && entry == EntryFor(b)
      modifies this`records, this`lastAccountId, this`lastAssetId
      ensures ok <==> old(Accepted(b))
      ensures ok ==> Valid() && Transacted(HeadNow(), prepared, b, blocks, BooksNow())
      ensures ok ==> NoLess(Passed(ReferenceOf(old(records)), 1, entry.missed), ReferenceOf(records)) && ChargedFor(old(records), records, entry)
      ensures ok && RealClaims(b.trxs) ==> ReferenceOf(records) == Passed(ReferenceOf(old(records)), 1, entry.missed)
      ensures b.trxs == [] && ok ==> SameDelegates(old(records), records)
    {
      SignerIsFound(records, SlotSignee(b.timestamp, active).value);
      var signee := FindByKey(b.signeeKey);
      if signee.None? {
        return false;
      }
      SignerIsExpected(records, SlotSignee(b.timestamp, active).value, signee.value);
      ok := Produce(b, signee.value, prepared, entry);
    }

    /** The changes of a block by its producer, and what they charge. */
    method Produce(b: Block, signee: AccountId, ghost prepared: Books, ghost entry: ChargeEntry) returns (ok: bool)
      requires Valid() && b.timestamp % BLOCK_INTERVAL == 0
      requires entry == ChargeEntry(active, headTime + BLOCK_INTERVAL, MissedHere(b.timestamp), signee)
      requires prepared == BooksNow().(records := PreparedBy(records, entry, b.num))
      modifies this`records, this`lastAccountId, this`lastAssetId
      ensures ok <==> && SlotsOwned(old(records), entry.order, entry.first, entry.missed) && GoodRate(old(records), signee)
                      && RewardsDue(blocks, b.num) && AppliedAll(HeadNow(), prepared, b.trxs).Some?
      ensures ok ==> Valid() && Transacted(HeadNow(), prepared, b, blocks, BooksNow())
      ensures ok ==> NoLess(Passed(ReferenceOf(old(records)), 1, entry.missed), ReferenceOf(records)) && ChargedFor(old(records), records, entry)
      ensures ok && RealClaims(b.trxs) ==> ReferenceOf(records) == Passed(ReferenceOf(old(records)), 1, entry.missed)
      ensures b.trxs == [] && ok ==> SameDelegates(old(records), records)
    {
      ghost var before := records;
      ok := MakeChanges(b, signee, prepared, entry);
      if ok {
        SoundIsKeyed(before);
        BlockIsCharged(HeadNow(), before, prepared, entry, b, blocks, BooksNow());
      }
    }

    method MakeChanges(b: Block, signee: AccountId, ghost prepared: Books, ghost entry: ChargeEntry) returns (ok: bool)
      requires Valid() && b.timestamp % BLOCK_INTERVAL == 0
      requires entry == ChargeEntry(active, headTime + BLOCK_INTERVAL, MissedHere(b.timestamp), signee)
      requires prepared == BooksNow().(records := PreparedBy(records, entry, b.num))
      modifies this`records, this`lastAccountId, this`lastAssetId
      ensures ok <==> && SlotsOwned(old(records), entry.order, entry.first, entry.missed) && GoodRate(old(records), signee)
                      && RewardsDue(blocks, b.num) && AppliedAll(HeadNow(), prepared, b.trxs).Some?
      ensures ok ==> Valid() && Transacted(HeadNow(), prepared, b, blocks, BooksNow())
    {
      ghost var entry';
      ok, entry' := UpdateProductionInfo(b.num, b.timestamp, signee);
      if ok {
        assert TermsOf(records, signee) == TermsOf(old(records), signee);
        ok := PayAndTransact(b, signee, prepared);
      }
    }

    method PayAndTransact(b: Block, signee: AccountId, ghost prepared: Books) returns (ok: bool)
      requires Valid() && prepared == BooksNow().(records := ProducerPaid(records, signee))
      modifies this`records, this`lastAccountId, this`lastAssetId
      ensures ok <==> GoodRate(old(records), signee) && RewardsDue(blocks, b.num) && AppliedAll(HeadNow(), prepared, b.trxs).Some?
      ensures ok ==> Valid() && Transacted(HeadNow(), prepared, b, blocks, BooksNow())
    {
      ok := PayDelegate(signee);
      if !ok {
        return;
      }
      assert BooksNow() == prepared;
      var error := ApplyTransactions(b.trxs);
      if error.Some? {
        return false;
      }
      var paid;
      ghost var w;
      ok, paid, w := PayOperationRewards(b.num, b.random);
      assert ok ==> TransactedBy(HeadNow(), prepared, b, blocks, BooksNow(), w);
    }

    /** Any run of blocks, accepted or refused, keeps the books balanced, the tallies exact and the pools from
        being overdrawn. Over the run each delegate is charged one block for each of its blocks and one missed slot for
        each of its turns that were passed over, which is what the log of the accepted blocks says. */
    method ExtendAll(run: seq<Block>) returns (ghost log: seq<ChargeEntry>)
      requires Valid() && forall i | 0 <= i < |run| :: run[i].signeeKey != NULL_KEY
      modifies this
      ensures Valid() && |log| <= |run|
      ensures ReferenceOf(records).produced == ReferenceOf(old(records)).produced + |log|
      ensures LogMatches(old(records), records, log)
      ensures old(Accounted()) && Numbered(old(headNum), run) ==> Accounted()
      ensures (forall i | 0 <= i < |run| :: RealClaims(run[i].trxs)) ==> ReferenceOf(records).paidTwice == ReferenceOf(old(records)).paidTwice
    {
      log := [];
      assert forall d, e :: LogCount(log, d, e) == 0;
      for i := 0 to |run|
        invariant Valid() && |log| <= i && (i == 0 ==> headNum == old(headNum))
        invariant ReferenceOf(records).produced == ReferenceOf(old(records)).produced + |log|
        invariant LogMatches(old(records), records, log)
        invariant old(Accounted()) && Numbered(old(headNum), run) ==> Accounted()
        invariant (forall j | 0 <= j < |run| :: RealClaims(run[j].trxs)) ==> ReferenceOf(records).paidTwice == ReferenceOf(old(records)).paidTwice
      {
        log := ExtendNext(run[i], old(records), log);
      }
    }

    /** One block of a run, accepted or refused. */
    method ExtendNext(b: Block, ghost start: Records, ghost log: seq<ChargeEntry>) returns (ghost log': seq<ChargeEntry>)
      requires Valid() && b.signeeKey != NULL_KEY && LogMatches(start, records, log)
      modifies this
      ensures Valid() && LogMatches(start, records, log') && |log| <= |log'| <= |log| + 1
      ensures ReferenceOf(records).produced == ReferenceOf(old(records)).produced + (|log'| - |log|)
      ensures |log'| == |log| + 1 <==> old(Accepted(b))
      ensures old(Accounted()) && (b.num > 1 || (b.num == 1 && old(headNum) == 0)) ==> Accounted()
      ensures RealClaims(b.trxs) ==> ReferenceOf(records).paidTwice == ReferenceOf(old(records)).paidTwice
    {
      ghost var before := records;
      var ok;
      ghost var entry;
      ok, entry := Extend(b);
      log' := log;
      if ok {
        LogNext(log, entry, start, before, records);
        log' := log + [entry];
      }
    }

    /** A block numbered one that is not later than the head, carries no transactions and passes the header checks is
        accepted, at a pay rate of at most 100, and the slots are then no longer accounted for. */
    method FirstAgain(b: Block)
      requires Valid() && Accounted() && headNum > 0
      requires b.num == 1 && b.timestamp <= headTime && b.trxs == [] && b.signeeKey != NULL_KEY
      requires !HeaderRefused(b) && GoodRate(records, SlotSignee(b.timestamp, active).value)
      modifies this
      ensures Valid() && headNum == 1 && headTime == b.timestamp && !Accounted()
    {
      var ok;
      ghost var entry;
      ok, entry := Extend(b);
    }
  }

  /** The first delegates of a genesis state are ranked, so the first round is not empty. */
  lemma FirstRound(keys: seq<Address>, balances: seq<(Address, nat)>, time: Time, top: seq<AccountId>)
    requires keys != [] && KeysDiffer(keys) && NULL_KEY !in keys && IsTop(GenesisRecords(keys, balances, time), top)
    ensures top != [] && 1 <= top[0] <= |keys|
    ensures TermsOf(GenesisRecords(keys, balances, time), top[0]) == Some((100, keys[top[0] - 1]))
  {
    var r := GenesisRecords(keys, balances, time);
    GenesisIsSound(keys, balances, time);
    GenesisIs(keys, balances, time);
    assert GetAccount(r, 1).Some? && AccountKey(1) in r && keys[0] in keys;
    var ranking: seq<AccountIndex.Vote> :| AccountIndex.Ranks(ranking, VotesOf(r)) && AccountIndex.IsPage(top, ranking, 0, NUM_DELEGATES);
    assert AccountIndex.VoteOf(GetAccount(r, AccountKey(1).account).value) in VotesOf(r);
    assert AccountIndex.VoteOf(GetAccount(r, AccountKey(1).account).value) in ranking;
    TopIsTrue(r, top);
    assert IsDelegate(r, top[0]) && GetAccount(r, top[0]).Some?;
  }

  /** A run over any genesis state: its first block, then another block numbered one at the same time. */
  method FirstBlockTwice(slateId: set<AccountId> -> SlateId, keys: seq<Address>, balances: seq<(Address, nat)>, time: Time)
    returns (chain: ChainState)
    requires |keys| >= NUM_DELEGATES && KeysDiffer(keys) && NULL_KEY !in keys
    ensures chain.Valid() && chain.headNum == 1 && !chain.Accounted()
  {
    var r := GenesisRecords(keys, balances, time);
    GenesisIsSound(keys, balances, time);
    GenesisIs(keys, balances, time);
    var active := AccountIndex.PageOf(VotesOf(r), 0, NUM_DELEGATES);
    FirstRound(keys, balances, time, active);
    chain := new ChainState(slateId, false, r, |keys|, 0, active);
    var key := keys[active[0] - 1];
    assert key in keys;
    var t := NUM_DELEGATES * BLOCK_INTERVAL;
    assert SlotSignee(t, active) == Some(active[0]);
    var b := Block(1, t, key, [], true, (0, 0, 0), i => 0);
    assert chain.Acceptable(b);
    var ok;
    ghost var entry;
    ok, entry := chain.Extend(b);
    assert TermsOf(chain.records, active[0]) == TermsOf(r, active[0]);
    chain.FirstAgain(b);
  }
}
