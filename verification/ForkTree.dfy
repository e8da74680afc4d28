/** The tree of all blocks ever received, and the flags kept on every node of it.
    This module is the mathematics; ChainDatabase holds the code that keeps it up to date. */
module ForkTree {
  import opened Prelude

  /** A block id stands for the hash of the block's header, so it fixes the block's number, its
      previous id and everything else in it. `Root` is the default id, the genesis marker. */
  datatype BlockId = Root | Digest(num: nat, previous: BlockId, payload: nat)

  datatype FullBlock = FullBlock(num: nat, previous: BlockId, payload: nat) {
    function Id(): BlockId {
      Digest(num, previous, payload)
    }
  }

  function Num(b: BlockId): nat {
    if b.Root? then 0 else b.num
  }

  function Depth(b: BlockId): nat {
    if b.Root? then 0 else 1 + Depth(b.previous)
  }

  /** `a` is `b` or lies on the chain of previous links from `b` back to the root. */
  predicate Ancestor(a: BlockId, b: BlockId)
    decreases b
  {
    a == b || (b.Digest? && Ancestor(a, b.previous))
  }

  /** `b` is `a`, or every block after `a` on the way to `b` has been received. */
  predicate Under(a: BlockId, b: BlockId, received: set<BlockId>)
    decreases b
  {
    b == a || (b.Digest? && b in received && Under(a, b.previous, received))
  }

  /** The received blocks strictly after `a`. */
  function Below(a: BlockId, received: set<BlockId>): set<BlockId> {
    set b | b in received && b != a && Under(a, b, received)
  }

  /** The nearest proper ancestor of `b` that is also an ancestor of `head`. */
  function ForkPoint(b: BlockId, head: BlockId): BlockId
    requires b.Digest?
    decreases b
  {
    if b.previous.Root? || Ancestor(b.previous, head) then b.previous else ForkPoint(b.previous, head)
  }

  /** Every block from the genesis marker to `b` has been received. */
  predicate Connected(b: BlockId, received: set<BlockId>) {
    Under(Root, b, received)
  }

  datatype Verdict = Accept | FromFuture | Reject

  /** Validation of a block by everything except its number: a fixed function of the block and,
      through its id, of the whole chain of its ancestors. */
  type Validation = BlockId -> Verdict

  /** The block extends its previous block: the number rule of the header and the remaining checks. */
  predicate Extends(v: Validation, b: BlockId)
    requires b.Digest?
  {
    (b.num > 1 ==> b.num == Num(b.previous) + 1) && v(b).Accept?
  }

  /** The block and all its ancestors are acceptable. */
  predicate ChainOk(v: Validation, b: BlockId) {
    b.Root? || (Extends(v, b) && ChainOk(v, b.previous))
  }

  /** The first unacceptable block on the way to `b`. */
  function FirstBad(v: Validation, b: BlockId): (f: BlockId)
    requires !ChainOk(v, b)
    ensures f.Digest? && Ancestor(f, b) && !ChainOk(v, f) && ChainOk(v, f.previous)
  {
    if ChainOk(v, b.previous) then b else FirstBad(v, b.previous)
  }

  lemma {:induction false} FirstBadIs(v: Validation, a: BlockId, b: BlockId)
    requires Ancestor(a, b) && a.Digest? && ChainOk(v, a.previous) && !ChainOk(v, a)
    ensures !ChainOk(v, b) && FirstBad(v, b) == a
  {
    if a != b {
      FirstBadIs(v, a, b.previous);
      assert Ancestor(a, b.previous);
    }
  }

  datatype ForkData = ForkData(next: set<BlockId>, linked: bool, valid: Option<bool>,
                               included: bool, known: bool) {
    predicate Invalid() {
      valid == Some(false)
    }
    predicate CanLink() {
      linked && !Invalid()
    }
  }

  const FRESH := ForkData({}, false, None, false, false)

  const GENESIS := ForkData({}, true, Some(true), true, true)

  type ForkDb = map<BlockId, ForkData>

  datatype Forks = Forks(db: ForkDb, blocks: map<BlockId, FullBlock>,
                         atNumber: map<nat, seq<BlockId>>, head: BlockId)

  /** The shape of the tree: every received block has a node and its previous block has one too, the next-lists
      are the previous links read backwards. */
  ghost predicate Shape(db: ForkDb, received: set<BlockId>) {
    && Root in db && Root !in received
    && (forall b | b in received :: b in db && b.previous in db)
    && (forall k {:trigger db[k].known} | k in db :: db[k].known <==> k.Root? || k in received)
    && (forall k, c {:trigger c in db[k].next} | k in db :: c in db[k].next <==> c in received && c.Digest? && c.previous == k)
  }

  predicate IsWaitedFor(db: ForkDb, k: BlockId)
    requires k in db
  {
    db[k].known || db[k].next != {}
  }

  /** Only received blocks and blocks somebody waits for have a node. */
  ghost predicate AllWaitedFor(db: ForkDb) {
    forall k {:trigger IsWaitedFor(db, k)} | k in db :: IsWaitedFor(db, k)
  }

  /** The number index lists exactly the received blocks. */
  ghost predicate Numbered(received: set<BlockId>, atNumber: map<nat, seq<BlockId>>) {
    && (forall b | b in received :: Num(b) in atNumber && b in atNumber[Num(b)])
    && (forall n, i | n in atNumber && 0 <= i < |atNumber[n]| ::
          atNumber[n][i] in received && Num(atNumber[n][i]) == n)
  }

  /** What the link and validity flags of one node promise. */
  ghost predicate FlagsOk(v: Validation, db: ForkDb, received: set<BlockId>, k: BlockId)
    requires k in db
  {
    && (k in received ==> k.Digest? && k.previous in db)
    && (db[k].linked && !k.Root? ==> k in received && db[k.previous].linked)
    && (k in received && db[k.previous].CanLink() ==> db[k].linked)
    && (k in received && db[k].linked && db[k.previous].Invalid() ==> db[k].Invalid())
    && (db[k].Invalid() && !db[k].linked ==> k in received && db[k.previous].Invalid())
    && (db[k].valid == Some(true) ==> ChainOk(v, k))
    && (db[k].Invalid() ==> !ChainOk(v, k))
  }

  ghost predicate AllFlagsOk(v: Validation, db: ForkDb, received: set<BlockId>) {
    forall k {:trigger FlagsOk(v, db, received, k)} | k in db :: FlagsOk(v, db, received, k)
  }

  /** The included nodes are the head and its ancestors, all received and all acceptable. */
  ghost predicate HeadOk(v: Validation, db: ForkDb, received: set<BlockId>, head: BlockId) {
    && (forall k {:trigger db[k].included} | k in db :: db[k].included <==> Ancestor(k, head))
    && Connected(head, received)
    && ChainOk(v, head)
  }

  ghost predicate Inv(v: Validation, s: Forks) {
    && (forall b | b in s.blocks :: b == s.blocks[b].Id())
    && Shape(s.db, s.blocks.Keys)
    && Numbered(s.blocks.Keys, s.atNumber)
    && s.db[Root].linked
    && AllFlagsOk(v, s.db, s.blocks.Keys)
    && HeadOk(v, s.db, s.blocks.Keys, s.head)
    && AllWaitedFor(s.db)
  }

  /* ---------------------------------------------------------------- facts about ancestry */

  lemma {:induction false} AncestorOfConnected(a: BlockId, b: BlockId, received: set<BlockId>)
    requires Connected(b, received) && Ancestor(a, b)
    ensures a.Root? || a in received
    ensures Connected(a, received)
  {
    if a != b {
      AncestorOfConnected(a, b.previous, received);
    }
  }

  lemma {:induction false} UnderIsAncestor(a: BlockId, b: BlockId, received: set<BlockId>)
    requires Under(a, b, received)
    ensures Ancestor(a, b)
    ensures a == b || Depth(a) < Depth(b)
  {
    if a != b {
      UnderIsAncestor(a, b.previous, received);
    }
  }

  lemma {:induction false} UnderTransitive(a: BlockId, b: BlockId, c: BlockId, received: set<BlockId>)
    requires Under(a, b, received) && Under(b, c, received)
    ensures Under(a, c, received)
  {
    if b != c {
      UnderTransitive(a, b, c.previous, received);
    }
  }

  lemma {:induction false} UnderMonotone(a: BlockId, b: BlockId, received: set<BlockId>, more: set<BlockId>)
    requires Under(a, b, received) && received <= more
    ensures Under(a, b, more)
  {
    if a != b {
      UnderMonotone(a, b.previous, received, more);
    }
  }

  /** One unacceptable ancestor spoils the whole chain above it. */
  lemma {:induction false} ChainOkOfAncestor(v: Validation, a: BlockId, b: BlockId)
    requires Ancestor(a, b) && ChainOk(v, b)
    ensures ChainOk(v, a)
  {
    if a != b {
      ChainOkOfAncestor(v, a, b.previous);
    }
  }

  /* ---------------------------------------------------------------- what each update does */

  function Link(db: ForkDb, ids: set<BlockId>): ForkDb {
    map k | k in db :: if k in ids then db[k].(linked := true) else db[k]
  }

  function Invalidate(db: ForkDb, ids: set<BlockId>): ForkDb {
    map k | k in db :: if k in ids then db[k].(valid := Some(false)) else db[k]
  }

  function NodeOr(db: ForkDb, k: BlockId): ForkData {
    if k in db then db[k] else FRESH
  }

  /** The two nodes a newly received block touches directly: its own and its previous block's. */
  function Attach(db: ForkDb, b: FullBlock): ForkDb {
    var prev := NodeOr(db, b.previous);
    var cur := NodeOr(db, b.Id());
    db[b.previous := prev.(next := prev.next + {b.Id()})]
      [b.Id() := cur.(known := true, linked := prev.linked,
                      valid := if prev.Invalid() && (prev.linked || b.Id() !in db) then Some(false) else cur.valid)]
  }

  /** The tree after a block has been received and the news has spread to the blocks that waited for it. */
  function AfterStore(db: ForkDb, received: set<BlockId>, b: FullBlock): ForkDb {
    var prev := NodeOr(db, b.previous);
    var waiting := Below(b.Id(), received);
    if !prev.linked || b.Id() !in db then Attach(db, b)
    else if prev.Invalid() then Invalidate(Attach(db, b), waiting)
    else Link(Attach(db, b), waiting)
  }

  function AddNumber(atNumber: map<nat, seq<BlockId>>, b: FullBlock): map<nat, seq<BlockId>> {
    atNumber[b.num := (if b.num in atNumber then atNumber[b.num] else []) + [b.Id()]]
  }

  function Store(s: Forks, b: FullBlock): Forks {
    Forks(AfterStore(s.db, s.blocks.Keys, b), s.blocks[b.Id() := b], AddNumber(s.atNumber, b), s.head)
  }

  /** A block that fails to extend the chain is marked, with everything after it. */
  function MarkInvalid(s: Forks, b: BlockId): Forks {
    s.(db := Invalidate(s.db, Below(b, s.blocks.Keys) + {b}))
  }

  function Include(s: Forks, b: BlockId): Forks
    requires b in s.db
  {
    s.(db := s.db[b := s.db[b].(included := true, valid := Some(true))], head := b)
  }

  function Pop(s: Forks): Forks
    requires s.head in s.db && s.head.Digest?
  {
    s.(db := s.db[s.head := s.db[s.head].(included := false)], head := s.head.previous)
  }

  /* ---------------------------------------------------------------- every update keeps the invariant */

  /** A block that waits for an unknown ancestor is neither linked nor known to be invalid. */
  lemma {:induction false} WaitingIsClean(v: Validation, db: ForkDb, received: set<BlockId>, id: BlockId, k: BlockId)
    requires Shape(db, received) && AllFlagsOk(v, db, received)
    requires id.Digest? && id !in received && k in Below(id, received)
    ensures k in db && !db[k].linked && !db[k].Invalid()
  {
    assert FlagsOk(v, db, received, k);
    if k.previous == id {
      assert FlagsOk(v, db, received, id);
    } else {
      assert Under(id, k.previous, received);
      WaitingIsClean(v, db, received, id, k.previous);
    }
  }

  /** A block nobody has mentioned yet has no received successors. */
  lemma {:induction false} NothingBelowUnmentioned(db: ForkDb, received: set<BlockId>, id: BlockId, c: BlockId)
    requires Shape(db, received) && id !in db && c != id
    ensures !Under(id, c, received)
  {
    if c in received && c.Digest? && c.previous != id {
      NothingBelowUnmentioned(db, received, id, c.previous);
    }
  }

  lemma AttachShape(db: ForkDb, received: set<BlockId>, b: FullBlock)
    requires Shape(db, received) && b.Id() !in received
    ensures Shape(Attach(db, b), received + {b.Id()})
  {
    var db' := Attach(db, b);
    assert db'.Keys == db.Keys + {b.previous, b.Id()};
    forall k, c | k in db'
      ensures c in db'[k].next <==> c in received + {b.Id()} && c.Digest? && c.previous == k
    {
      assert k in db ==> (c in db[k].next <==> c in received && c.Digest? && c.previous == k);
      assert k !in db && c in received ==> c.previous != k;
      assert db'[k].next == NodeOr(db, k).next + (if k == b.previous then {b.Id()} else {});
    }
  }

  lemma MarksKeepShape(db: ForkDb, received: set<BlockId>, ids: set<BlockId>)
    requires Shape(db, received)
    ensures Shape(Link(db, ids), received) && Shape(Invalidate(db, ids), received)
  {
  }

  lemma StoreNumbered(received: set<BlockId>, atNumber: map<nat, seq<BlockId>>, b: FullBlock)
    requires Numbered(received, atNumber) && b.Id() !in received
    ensures Numbered(received + {b.Id()}, AddNumber(atNumber, b))
  {
  }

  /** How the flags of one node move when block `b` is received. */
  lemma StoreEffect(db: ForkDb, received: set<BlockId>, b: FullBlock, k: BlockId)
    requires b.Id() !in db ==> Below(b.Id(), received) == {}
    requires b.Id() in db ==> !db[b.Id()].linked
    requires k in db || k == b.Id() || k == b.previous
    ensures k in AfterStore(db, received, b)
    ensures var prev, waiting := NodeOr(db, b.previous), Below(b.Id(), received);
            var old', new' := NodeOr(db, k), AfterStore(db, received, b)[k];
            && new'.included == old'.included
            && new'.linked == (old'.linked || (prev.linked && (k == b.Id() || (k in waiting && !prev.Invalid()))))
            && new'.valid == (if (k == b.Id() && prev.Invalid() && (prev.linked || k !in db))
                                 || (k in waiting && prev.linked && prev.Invalid())
                              then Some(false) else old'.valid)
  {
  }

  lemma StoreReady(v: Validation, db: ForkDb, received: set<BlockId>, b: FullBlock)
    requires Shape(db, received) && AllFlagsOk(v, db, received) && b.Id() !in received
    ensures b.Id() !in db ==> Below(b.Id(), received) == {}
    ensures b.Id() in db ==> !db[b.Id()].linked && !db[b.Id()].Invalid()
    ensures NodeOr(db, b.previous).Invalid() ==> !ChainOk(v, b.Id())
  {
    if b.Id() in db {
      assert FlagsOk(v, db, received, b.Id());
    } else {
      forall c | c in Below(b.Id(), received) ensures false {
        NothingBelowUnmentioned(db, received, b.Id(), c);
      }
    }
    if b.previous in db {
      assert FlagsOk(v, db, received, b.previous);
    }
  }

  lemma StoreKeepsFlags(v: Validation, db: ForkDb, received: set<BlockId>, b: FullBlock, k: BlockId)
    requires Shape(db, received) && AllFlagsOk(v, db, received) && b.Id() !in received
    requires k in AfterStore(db, received, b)
    ensures FlagsOk(v, AfterStore(db, received, b), received + {b.Id()}, k)
  {
    var id, waiting := b.Id(), Below(b.Id(), received);
    StoreReady(v, db, received, b);
    StoreEffect(db, received, b, k);
    if k == id {
      StoreEffect(db, received, b, b.previous);
      assert id in db ==> FlagsOk(v, db, received, id);
      assert b.previous in db ==> FlagsOk(v, db, received, b.previous);
    } else if k in waiting {
      WaitingIsClean(v, db, received, id, k);
      UnderIsAncestor(id, k, received);
      StoreEffect(db, received, b, k.previous);
      assert Under(id, k.previous, received);
      if k.previous != id {
        WaitingIsClean(v, db, received, id, k.previous);
      }
      if ChainOk(v, k) {
        ChainOkOfAncestor(v, id, k);
      }
      assert FlagsOk(v, db, received, k);
    } else if k in db {
      assert FlagsOk(v, db, received, k);
      if k in received {
        StoreEffect(db, received, b, k.previous);
        assert Under(id, k, received) <==> Under(id, k.previous, received);
        assert k.previous != id && k.previous !in waiting;
      }
    }
  }

  /** Receiving a block, in any order, keeps the invariant. */
  lemma StoreKeepsInv(v: Validation, s: Forks, b: FullBlock)
    requires Inv(v, s) && b.Id() !in s.blocks
    ensures Inv(v, Store(s, b))
  {
    var received, db' := s.blocks.Keys, AfterStore(s.db, s.blocks.Keys, b);
    assert Store(s, b).blocks.Keys == received + {b.Id()};
    AttachShape(s.db, received, b);
    MarksKeepShape(Attach(s.db, b), received + {b.Id()}, Below(b.Id(), received));
    StoreNumbered(received, s.atNumber, b);
    StoreReady(v, s.db, received, b);
    StoreEffect(s.db, received, b, Root);
    forall k | k in db' ensures FlagsOk(v, db', received + {b.Id()}, k) {
      StoreKeepsFlags(v, s.db, received, b, k);
    }
    StoreKeepsHead(v, s.db, received, s.head, b);
    StoreKeepsWaiting(s.db, received, b);
  }

  lemma StoreKeepsWaiting(db: ForkDb, received: set<BlockId>, b: FullBlock)
    requires AllWaitedFor(db)
    ensures AllWaitedFor(AfterStore(db, received, b))
  {
    forall k | k in AfterStore(db, received, b) ensures IsWaitedFor(AfterStore(db, received, b), k) {
      assert k in db ==> IsWaitedFor(db, k);
      assert k == b.previous ==> b.Id() in AfterStore(db, received, b)[k].next;
    }
  }

  /** Nodes that keep their block and their successors stay waited for. */
  lemma KeepWaiting(db: ForkDb, db': ForkDb)
    requires AllWaitedFor(db) && db'.Keys == db.Keys
    requires forall k | k in db :: db'[k].known == db[k].known && db'[k].next == db[k].next
    ensures AllWaitedFor(db')
  {
    forall k | k in db' ensures IsWaitedFor(db', k) {
      assert IsWaitedFor(db, k);
    }
  }

  lemma StoreKeepsHead(v: Validation, db: ForkDb, received: set<BlockId>, head: BlockId, b: FullBlock)
    requires Shape(db, received) && AllFlagsOk(v, db, received) && b.Id() !in received
    requires HeadOk(v, db, received, head)
    ensures HeadOk(v, AfterStore(db, received, b), received + {b.Id()}, head)
  {
    var db' := AfterStore(db, received, b);
    StoreReady(v, db, received, b);
    UnderMonotone(Root, head, received, received + {b.Id()});
    forall k | k in db' ensures db'[k].included <==> Ancestor(k, head) {
      StoreEffect(db, received, b, k);
      if k !in db && Ancestor(k, head) {
        AncestorOfConnected(k, head, received);
      }
    }
  }

  /** Marking a block that fails, and everything after it, keeps the invariant and never
      overwrites a mark of validity. */
  lemma MarkInvalidKeepsInv(v: Validation, s: Forks, b: BlockId)
    requires Inv(v, s) && b in s.blocks && s.db[b].linked && !ChainOk(v, b)
    ensures Inv(v, MarkInvalid(s, b))
    ensures forall k | k in Below(b, s.blocks.Keys) + {b} :: k in s.db && s.db[k].valid != Some(true)
  {
    var received := s.blocks.Keys;
    var marked := Below(b, received) + {b};
    var s' := MarkInvalid(s, b);
    MarksKeepShape(s.db, received, marked);
    KeepWaiting(s.db, s'.db);
    forall k | k in s.db
      ensures FlagsOk(v, s'.db, received, k)
      ensures k in marked ==> s.db[k].valid != Some(true)
    {
      MarkInvalidKeepsFlags(v, s.db, received, b, k);
    }
  }

  lemma MarkInvalidKeepsFlags(v: Validation, db: ForkDb, received: set<BlockId>, b: BlockId, k: BlockId)
    requires Shape(db, received) && AllFlagsOk(v, db, received)
    requires b in received && db[b].linked && !ChainOk(v, b) && k in db
    ensures FlagsOk(v, Invalidate(db, Below(b, received) + {b}), received, k)
    ensures k in Below(b, received) + {b} ==> db[k].valid != Some(true)
  {
    var marked := Below(b, received) + {b};
    assert FlagsOk(v, db, received, k);
    if k in marked {
      assert Under(b, k, received);
      UnderIsAncestor(b, k, received);
      if ChainOk(v, k) {
        ChainOkOfAncestor(v, b, k);
      }
      if k != b {
        assert Under(b, k.previous, received);
        assert k.previous in marked;
      }
    } else if k in received {
      assert k.previous in marked ==> Under(b, k.previous, received);
      assert Under(b, k.previous, received) ==> Under(b, k, received);
    }
  }

  /** Extending the chain by an acceptable block keeps the invariant. */
  lemma IncludeKeepsInv(v: Validation, s: Forks, b: BlockId)
    requires Inv(v, s) && b in s.blocks && b.previous == s.head && Extends(v, b)
    ensures Inv(v, Include(s, b))
  {
    var s', received := Include(s, b), s.blocks.Keys;
    assert s'.db.Keys == s.db.Keys;
    KeepWaiting(s.db, s'.db);
    forall k | k in s.db
      ensures FlagsOk(v, s'.db, received, k)
      ensures s'.db[k].included <==> Ancestor(k, b)
    {
      assert FlagsOk(v, s.db, received, k);
      assert FlagsOk(v, s.db, received, b);
    }
    assert Shape(s'.db, received);
  }

  /** Taking the head off the chain keeps the invariant. */
  lemma PopKeepsInv(v: Validation, s: Forks)
    requires Inv(v, s) && s.head.Digest? && s.head in s.db
    ensures Inv(v, Pop(s))
  {
    var s', received := Pop(s), s.blocks.Keys;
    assert s'.db.Keys == s.db.Keys;
    KeepWaiting(s.db, s'.db);
    forall k | k in s.db
      ensures FlagsOk(v, s'.db, received, k)
      ensures s'.db[k].included <==> Ancestor(k, s'.head)
    {
      assert FlagsOk(v, s.db, received, k);
      if k == s.head && Ancestor(k, s.head.previous) {
        AncestorIsNotDeeper(k, s.head.previous);
      }
    }
    assert Shape(s'.db, received);
  }

  lemma {:induction false} AncestorIsNotDeeper(a: BlockId, b: BlockId)
    requires Ancestor(a, b)
    ensures Depth(a) <= Depth(b)
  {
    if a != b {
      AncestorIsNotDeeper(a, b.previous);
    }
  }

  /* ---------------------------------------------------------------- what the invariant means */

  /** A linked block that is not known to be invalid stands on a chain of received, linked,
      not-invalid blocks that reaches the genesis marker. */
  lemma {:induction false} LinkedChain(v: Validation, s: Forks, b: BlockId, a: BlockId)
    requires Inv(v, s) && b in s.db && s.db[b].CanLink() && Ancestor(a, b)
    ensures a in s.db && s.db[a].CanLink() && s.db[a].known
    ensures Connected(b, s.blocks.Keys)
  {
    assert FlagsOk(v, s.db, s.blocks.Keys, b);
    if b.Digest? {
      LinkedChain(v, s, b.previous, if a == b then b.previous else a);
    }
  }

  /** Every fully received, acceptable chain is linked and has no block marked invalid. */
  lemma {:induction false} GoodChainCanLink(v: Validation, s: Forks, b: BlockId)
    requires Inv(v, s) && Good(v, b, s.blocks.Keys)
    ensures b in s.db && s.db[b].CanLink()
  {
    assert Root in s.db && FlagsOk(v, s.db, s.blocks.Keys, Root);
    if b.Digest? {
      GoodChainCanLink(v, s, b.previous);
      assert FlagsOk(v, s.db, s.blocks.Keys, b);
    }
  }

  /** A fully received, acceptable chain ends in `b`. */
  ghost predicate Good(v: Validation, b: BlockId, received: set<BlockId>) {
    Connected(b, received) && ChainOk(v, b)
  }

  ghost predicate GoodUpTo(v: Validation, received: set<BlockId>, n: nat) {
    forall b | b in received && Good(v, b, received) :: Num(b) <= n
  }

  /** No fully received, acceptable chain is longer than the one in use. */
  ghost predicate HeadIsBest(v: Validation, s: Forks) {
    GoodUpTo(v, s.blocks.Keys, Num(s.head))
  }

  /** When the head is best, its number depends only on the set of received blocks: the order in
      which they arrived and the forks tried on the way leave no trace in it. */
  lemma HeadNumberIsDetermined(v: Validation, s: Forks, t: Forks)
    requires Inv(v, s) && Inv(v, t) && s.blocks.Keys == t.blocks.Keys
    requires HeadIsBest(v, s) && HeadIsBest(v, t)
    ensures Num(s.head) == Num(t.head)
  {
    assert Good(v, s.head, s.blocks.Keys) && Good(v, t.head, t.blocks.Keys);
  }
}
