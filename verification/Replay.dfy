/** Protection against replayed transactions. The digest of a transaction covers its expiration and is unique
    to it, so a transaction stands for its digest here. */
module Replay {
  import opened Records
  import opened Schedule

  const MAX_EXPIRATION := 60 * 60 * 24 * 2

  datatype Trx = Trx(expiration: Time, content: nat)

  datatype Applied = Applied(num: nat, timestamp: Time, trxs: seq<Trx>)

  function All(blocks: seq<Applied>): seq<Trx> {
    if blocks == [] then [] else All(blocks[..|blocks| - 1]) + blocks[|blocks| - 1].trxs
  }

  /** The transaction may be evaluated at time `now` when `known` are known. */
  predicate Acceptable(t: Trx, now: Time, known: set<Trx>) {
    now < t.expiration <= now + MAX_EXPIRATION && t !in known
  }

  function Elements<T>(s: seq<T>): set<T> {
    set x | x in s
  }

  /** Every transaction of a block is acceptable after those before it. */
  predicate AllAcceptable(trxs: seq<Trx>, now: Time, known: set<Trx>) {
    forall i | 0 <= i < |trxs| :: Acceptable(trxs[i], now, known + Elements(trxs[..i]))
  }

  predicate Earlier(t: Trx, u: Trx) {
    t.expiration < u.expiration || (t.expiration == u.expiration && t.content < u.content)
  }

  /** The first element of the ordered set. */
  predicate IsLeast(t: Trx, s: set<Trx>) {
    t in s && forall u | u in s && u != t :: Earlier(t, u)
  }

  lemma {:induction false} LeastExists(s: set<Trx>) returns (t: Trx)
    requires s != {}
    ensures IsLeast(t, s)
    decreases |s|
  {
    var u :| u in s;
    if s - {u} == {} {
      t := u;
      assert forall x | x in s && x != u :: x in s - {u};
    } else {
      var v := LeastExists(s - {u});
      t := if Earlier(u, v) then u else v;
      forall x | x in s && x != t ensures Earlier(t, x) {
        assert x == u || x in s - {u};
      }
    }
  }

  lemma NoneBeforeLeast(t: Trx, s: set<Trx>, now: Time)
    requires IsLeast(t, s) && t.expiration > now
    ensures forall u | u in s :: u.expiration > now
  {
    forall u | u in s ensures u.expiration > now {
      assert u == t || Earlier(t, u);
    }
  }

  lemma TwoBlocks(a: Applied, b: Applied)
    ensures All([a]) == a.trxs && All([a] + [b]) == a.trxs + b.trxs
  {
    assert [a][..0] == [];
    assert ([a] + [b])[..1] == [a];
  }

  function Unexpired(s: set<Trx>, now: Time): set<Trx> {
    set t | t in s && t.expiration > now
  }

  lemma DistinctAppend<T>(s: seq<T>, t: seq<T>)
    requires Distinct(s) && Distinct(t) && Elements(s) !! Elements(t)
    ensures Distinct(s + t)
  {
    forall i, j | 0 <= i < j < |s + t| ensures (s + t)[i] != (s + t)[j] {
      if i < |s| <= j {
        assert s[i] in Elements(s) && t[j - |s|] in Elements(t);
      }
    }
  }

  lemma AcceptableIsDistinct(trxs: seq<Trx>, now: Time, known: set<Trx>)
    requires AllAcceptable(trxs, now, known)
    ensures Distinct(trxs) && Elements(trxs) !! known
  {
    forall i, j | 0 <= i < j < |trxs| ensures trxs[i] != trxs[j] {
      assert trxs[..j][i] in Elements(trxs[..j]);
      assert Acceptable(trxs[j], now, known + Elements(trxs[..j]));
    }
  }

  lemma DistinctSplit<T>(s: seq<T>, t: seq<T>)
    requires Distinct(s + t)
    ensures Distinct(s) && Elements(s) !! Elements(t)
  {
    forall i, j | 0 <= i < j < |s| ensures s[i] != s[j] {
      assert (s + t)[i] != (s + t)[j];
    }
    forall x | x in s ensures x !in t {
      var i :| 0 <= i < |s| && s[i] == x;
      forall j | 0 <= j < |t| ensures t[j] != x {
        assert (s + t)[i] != (s + t)[|s| + j];
      }
    }
  }

  /** The transactions expired when the head went from `now` to `then`, or would come alive again. */
  predicate Between(t: Trx, now: Time, then': Time) {
    now < t.expiration <= then'
  }

  /** Applying a block to an exact log repeats no transaction, and leaves it exact unless the time goes back past
      the expiration of a transaction that was forgotten. */
  lemma ExtendLog(before: seq<Trx>, trxs: seq<Trx>, now: Time, known: set<Trx>, timestamp: Time)
    requires AllAcceptable(trxs, now, known) && known == Unexpired(Elements(before), now) && Distinct(before)
    ensures Distinct(before + trxs)
    ensures Unexpired(known + Elements(trxs), timestamp) == Unexpired(Elements(before + trxs), timestamp) <==>
            forall t | t in before :: !Between(t, timestamp, now)
  {
    AcceptableIsDistinct(trxs, now, known);
    FreshTransactions(before, trxs, now, known);
    DistinctAppend(before, trxs);
    assert Elements(before + trxs) == Elements(before) + Elements(trxs);
    if t: Trx :| t in before && Between(t, timestamp, now) {
      assert t in Elements(before) && t !in known && t !in Elements(trxs);
      assert t in Unexpired(Elements(before + trxs), timestamp) && t !in Unexpired(known + Elements(trxs), timestamp);
    } else {
      forall t | t in Elements(before) && t.expiration > timestamp ensures t in known {
        assert !Between(t, timestamp, now);
      }
    }
  }

  class TransactionLog {
    const genesis: Time
    var blocks: seq<Applied>
    var unique: set<Trx>

    function HeadTime(): Time
      reads this
    {
      if blocks == [] then genesis else blocks[|blocks| - 1].timestamp
    }

    function HeadNum(): nat
      reads this
    {
      if blocks == [] then 0 else blocks[|blocks| - 1].num
    }

    /** No transaction was applied twice. */
    ghost predicate NoReplay()
      reads this
    {
      Distinct(All(blocks))
    }

    /** The unique set holds exactly the applied transactions that have not expired. */
    ghost predicate Exact()
      reads this
    {
      unique == Unexpired(Elements(All(blocks)), HeadTime())
    }

    constructor (genesis: Time)
      ensures NoReplay() && Exact() && blocks == [] && unique == {} && this.genesis == genesis
    {
      this.genesis, blocks, unique := genesis, [], {};
    }

    /** Forgets expired transactions, the earliest first. */
    method Purge(now: Time)
      modifies this`unique
      ensures unique == Unexpired(old(unique), now)
    {
      while unique != {}
        invariant Unexpired(old(unique), now) <= unique <= old(unique)
        decreases unique
      {
        ghost var least := LeastExists(unique);
        assert IsLeast(least, unique);
        var t :| t in unique && IsLeast(t, unique);
        if t.expiration > now {
          NoneBeforeLeast(t, unique, now);
          return;
        }
        unique := unique - {t};
      }
    }

    /** Evaluates the transactions of a block: not expired, not too far in the future, not known. */
    method Evaluate(trxs: seq<Trx>) returns (ok: bool)
      ensures ok <==> AllAcceptable(trxs, HeadTime(), unique)
    {
      var digests: set<Trx> := {};
      for i := 0 to |trxs|
        invariant digests == Elements(trxs[..i])
        invariant forall j | 0 <= j < i :: Acceptable(trxs[j], HeadTime(), unique + Elements(trxs[..j]))
      {
        if HeadTime() >= trxs[i].expiration || HeadTime() + MAX_EXPIRATION < trxs[i].expiration {
          return false;
        }
        if trxs[i] in digests || trxs[i] in unique {
          return false;
        }
        digests := digests + {trxs[i]};
      }
      ok := true;
    }

    /** The number and time checks of the header. Only blocks numbered above one must be later than the head. */
    predicate HeaderRefused(num: nat, timestamp: Time)
      reads this
    {
      num > 1 && (num != HeadNum() + 1 || timestamp <= HeadTime())
    }

    /** Applies a block to the log. From an exact log it never repeats a transaction, and the log stays exact
        if and only if no transaction applied before expired after the time of the block and up to the time of the
        head. For a block later than the head, and so for every block numbered above one, there is none. */
    method Extend(num: nat, timestamp: Time, trxs: seq<Trx>) returns (ok: bool)
      modifies this
      ensures ok <==> old(!HeaderRefused(num, timestamp)) && AllAcceptable(trxs, old(HeadTime()), old(unique))
      ensures if ok then blocks == old(blocks) + [Applied(num, timestamp, trxs)] && unique == Unexpired(old(unique) + Elements(trxs), timestamp)
              else blocks == old(blocks) && unique == old(unique)
      ensures old(NoReplay() && Exact()) ==> NoReplay()
      ensures old(NoReplay() && Exact()) && ok ==>
                (Exact() <==> forall t | t in All(old(blocks)) :: !Between(t, timestamp, old(HeadTime())))
    {
      if HeaderRefused(num, timestamp) {
        return false;
      }
      ok := Evaluate(trxs);
      if ok {
        ghost var before, now, known := All(blocks), HeadTime(), unique;
        unique := unique + Elements(trxs);
        blocks := blocks + [Applied(num, timestamp, trxs)];
        assert blocks[..|blocks| - 1] == old(blocks) && All(blocks) == before + trxs;
        Purge(timestamp);
        if Distinct(before) && known == Unexpired(Elements(before), now) {
          ExtendLog(before, trxs, now, known, timestamp);
        }
      }
    }

    /** Takes back the last block and forgets its transactions; a head numbered zero is left alone. The log is exact
        afterwards if and only if no remaining transaction expired between the two head times. */
    method Pop()
      requires NoReplay() && Exact()
      modifies this
      ensures NoReplay() && blocks == if old(HeadNum()) == 0 then old(blocks) else old(blocks)[..|old(blocks)| - 1]
      ensures old(HeadNum()) != 0 ==> unique == old(unique) - Elements(old(blocks)[|blocks|].trxs)
      ensures Exact() <==>
                forall t | t in All(blocks) :: !Between(t, HeadTime(), old(HeadTime())) && !Between(t, old(HeadTime()), HeadTime())
    {
      if HeadNum() == 0 {
        return;
      }
      var last := blocks[|blocks| - 1];
      ghost var rest := blocks[..|blocks| - 1];
      DistinctSplit(All(rest), last.trxs);
      unique := unique - Elements(last.trxs);
      blocks := blocks[..|blocks| - 1];
      assert unique == Unexpired(Elements(All(rest)), last.timestamp);
      SameUnexpired(All(rest), last.timestamp, HeadTime());
    }

    /** Any run of blocks, accepted or refused, in which only the first block of a chain is numbered one or less:
        no transaction is applied twice, although expired ones are forgotten. */
    method ExtendAll(run: seq<Applied>)
      modifies this
      ensures old(NoReplay() && Exact()) && Numbered(old(blocks), run) ==> NoReplay() && Exact()
    {
      for i := 0 to |run|
        invariant i == 0 ==> blocks == old(blocks)
        invariant old(NoReplay() && Exact()) && Numbered(old(blocks), run) ==> NoReplay() && Exact()
      {
        var ok := Extend(run[i].num, run[i].timestamp, run[i].trxs);
      }
    }
  }

  ghost predicate Numbered(blocks: seq<Applied>, run: seq<Applied>) {
    forall i | 0 <= i < |run| :: run[i].num > 1 || (i == 0 && blocks == [])
  }

  lemma SameUnexpired(trxs: seq<Trx>, now: Time, then': Time)
    ensures Unexpired(Elements(trxs), now) == Unexpired(Elements(trxs), then') <==>
            forall t | t in trxs :: !Between(t, then', now) && !Between(t, now, then')
  {
    if t: Trx :| t in trxs && (Between(t, then', now) || Between(t, now, then')) {
      assert t in Elements(trxs);
      assert t in Unexpired(Elements(trxs), now) <==> t !in Unexpired(Elements(trxs), then');
    } else {
      forall t | t in Elements(trxs) ensures t.expiration > now <==> t.expiration > then' {
        assert !Between(t, then', now) && !Between(t, now, then');
      }
    }
  }

  lemma FreshTransactions(before: seq<Trx>, trxs: seq<Trx>, now: Time, unique: set<Trx>)
    requires AllAcceptable(trxs, now, unique) && unique == Unexpired(Elements(before), now)
    ensures Elements(before) !! Elements(trxs)
  {
    forall i | 0 <= i < |trxs| ensures trxs[i] !in before {
      assert Acceptable(trxs[i], now, unique + Elements(trxs[..i]));
    }
  }

  lemma OneAcceptable(t: Trx, now: Time)
    requires Acceptable(t, now, {})
    ensures AllAcceptable([t], now, {})
  {
    assert [t][..0] == [] && {} + Elements<Trx>([]) == {};
  }

  method OneTransaction(t: Trx) returns (log: TransactionLog)
    requires t.expiration == 15
    ensures fresh(log) && log.NoReplay() && log.Exact() && log.unique == {t}
    ensures log.blocks == [Applied(1, 10, [t])]
  {
    log := new TransactionLog(0);
    OneAcceptable(t, 0);
    var ok := log.Extend(1, 10, [t]);
    assert Elements([t]) == {t};
    assert log.blocks == [Applied(1, 10, [t])];
  }

  /** A log in which the one transaction was applied and has been forgotten. */
  method ForgottenTransaction(t: Trx) returns (log: TransactionLog)
    requires t.expiration == 15
    ensures fresh(log) && log.NoReplay() && log.Exact() && log.unique == {}
    ensures log.blocks == [Applied(1, 10, [t]), Applied(2, 20, [])]
  {
    log := OneTransaction(t);
    TwoBlocks(Applied(1, 10, [t]), Applied(2, 20, []));
    var ok := log.Extend(2, 20, []);
    assert log.blocks == [Applied(1, 10, [t])] + [Applied(2, 20, [])];
  }

  /** With a pop a transaction can be applied twice: it is forgotten by the block that is taken back. */
  method ReplayAfterPop() returns (log: TransactionLog)
    ensures !log.NoReplay()
  {
    var t := Trx(15, 0);
    log := ForgottenTransaction(t);
    log.Pop();
    assert log.blocks == [Applied(1, 10, [t])];
    OneAcceptable(t, 10);
    var ok := log.Extend(2, 30, [t]);
    TwoBlocks(Applied(1, 10, [t]), Applied(2, 30, [t]));
    assert log.blocks == [Applied(1, 10, [t])] + [Applied(2, 30, [t])];
    assert ([t] + [t])[0] == ([t] + [t])[1];
  }

  lemma FourBlocks(a: Applied, b: Applied, c: Applied, d: Applied)
    requires b.trxs == [] && c.trxs == []
    ensures All([a, b, c, d]) == a.trxs + d.trxs
  {
    TwoBlocks(a, b);
    assert [a, b, c, d][..3] == [a, b, c] && [a, b, c][..2] == [a] + [b];
    assert a.trxs + [] == a.trxs;
  }

  /** And without any pop: a block numbered one on top of the head takes the time back. */
  method ReplayWithoutPop() returns (log: TransactionLog)
    ensures !log.NoReplay()
  {
    var t := Trx(15, 0);
    log := ForgottenTransaction(t);
    var ok := log.Extend(1, 10, []);
    OneAcceptable(t, 10);
    ok := log.Extend(2, 30, [t]);
    FourBlocks(Applied(1, 10, [t]), Applied(2, 20, []), Applied(1, 10, []), Applied(2, 30, [t]));
    assert log.blocks == [Applied(1, 10, [t]), Applied(2, 20, []), Applied(1, 10, []), Applied(2, 30, [t])];
    assert ([t] + [t])[0] == ([t] + [t])[1];
  }
}
