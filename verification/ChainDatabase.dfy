/** The code that receives blocks, keeps the fork tree and moves the head of the chain. */
module ChainDatabase {
  import opened Prelude
  import opened ForkTree

  /** The tip a marking pass reports: the marked block with the highest positive number, with its
      node, or the default pair when no marked block has a positive number. */
  ghost predicate Highest(tip: BlockId, data: ForkData, db: ForkDb, marked: set<BlockId>) {
    if tip.Root? then data == FRESH && forall k | k in marked :: Num(k) == 0
    else tip in marked && tip in db && data == db[tip] && Num(tip) > 0 && forall k | k in marked :: Num(k) <= Num(tip)
  }

  /** Progress of a breadth-first pass over everything below `base`: `done` has been marked and
      `next` is the level that comes now. */
  ghost predicate Frontier(base: BlockId, received: set<BlockId>, done: set<BlockId>, next: set<BlockId>) {
    && done <= Below(base, received) && next <= Below(base, received) && done !! next
    && (forall k | k in done + next :: k.Digest? && k.previous in done + {base})
    && (forall c | c in received && c.Digest? && c.previous in done + {base} :: c in done + next)
  }

  /** The next-blocks of a whole level. */
  function Children(level: set<BlockId>, received: set<BlockId>): set<BlockId> {
    set c | c in received && c.Digest? && c.previous in level
  }

  lemma FrontierStarts(db: ForkDb, received: set<BlockId>, base: BlockId)
    requires Shape(db, received) && base in db
    ensures Frontier(base, received, {}, db[base].next)
  {
    forall c | c in db[base].next ensures c in Below(base, received) {
      assert Under(base, c.previous, received);
    }
  }

  lemma FrontierAdvances(base: BlockId, received: set<BlockId>, done: set<BlockId>, next: set<BlockId>)
    requires Frontier(base, received, done, next)
    ensures Frontier(base, received, done + next, Children(next, received))
  {
    forall c | c in Children(next, received)
      ensures c in Below(base, received) && c !in done + next
    {
      assert Under(base, c.previous, received);
      UnderIsAncestor(base, c.previous, received);
    }
  }

  lemma {:induction false} FrontierComplete(base: BlockId, received: set<BlockId>, done: set<BlockId>, k: BlockId)
    requires Frontier(base, received, done, {})
    requires k in Below(base, received)
    ensures k in done
  {
    if k.previous != base {
      assert Under(base, k.previous, received);
      FrontierComplete(base, received, done, k.previous);
    }
  }

  lemma FrontierDone(base: BlockId, received: set<BlockId>, done: set<BlockId>)
    requires Frontier(base, received, done, {})
    ensures done == Below(base, received)
  {
    forall k | k in Below(base, received) ensures k in done {
      FrontierComplete(base, received, done, k);
    }
  }

  /** One more block of the level is marked. */
  lemma LevelStep(db: ForkDb, received: set<BlockId>, done: set<BlockId>, level: set<BlockId>, todo: set<BlockId>, x: BlockId)
    requires Shape(db, received) && level <= received && todo <= level && x in todo
    ensures done + (level - (todo - {x})) == done + (level - todo) + {x}
    ensures Children(level - (todo - {x}), received) == Children(level - todo, received) + db[x].next
    ensures Link(db, done + (level - (todo - {x}))) ==
            Link(db, done + (level - todo))[x := Link(db, done + (level - todo))[x].(linked := true)]
    ensures Invalidate(db, done + (level - (todo - {x}))) ==
            Invalidate(db, done + (level - todo))[x := Invalidate(db, done + (level - todo))[x].(valid := Some(false))]
  {
    assert level - (todo - {x}) == level - todo + {x};
    assert forall c :: c in db[x].next <==> c in received && c.Digest? && c.previous == x;
  }

  /** No block after `target` up to `head` is numbered zero. The header checks let such a block through, and a
      head with that number is never popped. */
  predicate Poppable(target: BlockId, head: BlockId)
    decreases head
  {
    head == target || (Num(head) != 0 && head.Digest? && Poppable(target, head.previous))
  }

  /** Switching from `head` to `b` would pop a head numbered zero, for ever. */
  predicate Blocked(b: BlockId, head: BlockId)
    requires b.Digest?
  {
    b != head && !Poppable(ForkPoint(b, head), head)
  }

  /** No acceptable chain that is received has a block numbered zero. */
  ghost predicate NoGoodZero(v: Validation, received: set<BlockId>) {
    forall b | b in received && Good(v, b, received) :: Num(b) != 0
  }

  lemma {:induction false} OnlyZeroBlocks(v: Validation, received: set<BlockId>, target: BlockId, head: BlockId)
    requires Good(v, head, received) && Ancestor(target, head) && NoGoodZero(v, received)
    ensures Poppable(target, head)
  {
    if head != target {
      OnlyZeroBlocks(v, received, target, head.previous);
    }
  }

  lemma {:induction false} ForkPointIsAncestor(b: BlockId, head: BlockId)
    requires b.Digest?
    ensures Ancestor(ForkPoint(b, head), head)
  {
    RootIsAncestor(head);
    if !b.previous.Root? && !Ancestor(b.previous, head) {
      ForkPointIsAncestor(b.previous, head);
    }
  }

  const MAX_UNDO_HISTORY: nat := 3 * (60 * 60 / 10)

  /** `PopsForever` stands for a call that does not return. */
  datatype PushError = BlockOlderThanUndoHistory | PopsForever

  /** What receiving a block reports: the highest block that waited for it when it closes a gap in a
      linked, not-invalid chain, and otherwise the block itself. */
  ghost predicate Reported(before: Forks, block: FullBlock, db: ForkDb, tip: BlockId, data: ForkData) {
    if block.Id() in before.db && NodeOr(before.db, block.previous).CanLink() then
      Highest(tip, data, db, Below(block.Id(), before.blocks.Keys))
    else
      tip == block.Id() && tip in db && data == db[tip]
  }

  lemma {:induction false} UnderSelf(a: BlockId, b: BlockId, received: set<BlockId>)
    ensures Under(a, b, received + {a}) == Under(a, b, received)
  {
    if b != a && b.Digest? {
      UnderSelf(a, b.previous, received);
    }
  }

  lemma BelowSelf(a: BlockId, received: set<BlockId>)
    ensures Below(a, received + {a}) == Below(a, received)
  {
    forall b ensures b in Below(a, received + {a}) <==> b in Below(a, received) {
      UnderSelf(a, b, received);
    }
  }

  /** What the code relies on when it spreads the news of a block: the shape of the tree after the
      block is attached, and that nothing it is about to mark was found valid before. */
  lemma StorePlan(v: Validation, db: ForkDb, received: set<BlockId>, block: FullBlock)
    requires Shape(db, received) && AllFlagsOk(v, db, received) && block.Id() !in received
    ensures block.Id() in db ==> !db[block.Id()].linked
    ensures Shape(Attach(db, block), received + {block.Id()})
    ensures Below(block.Id(), received + {block.Id()}) == Below(block.Id(), received)
    ensures NodeOr(db, block.previous).Invalid() ==>
              forall k | k in Below(block.Id(), received) :: k in db && db[k].valid != Some(true)
  {
    StoreReady(v, db, received, block);
    AttachShape(db, received, block);
    BelowSelf(block.Id(), received);
    if NodeOr(db, block.previous).Invalid() {
      forall k | k in Below(block.Id(), received) ensures k in db && db[k].valid != Some(true) {
        assert FlagsOk(v, db, received, k);
        if ChainOk(v, k) {
          UnderIsAncestor(block.Id(), k, received);
          ChainOkOfAncestor(v, block.Id(), k);
        }
      }
    }
  }

  /** A walk along previous links that starts at `id`. */
  ghost predicate IsPath(path: seq<BlockId>, id: BlockId) {
    && |path| >= 1 && path[0] == id
    && forall i | 0 <= i < |path| - 1 :: path[i].Digest? && path[i + 1] == path[i].previous
  }

  lemma {:induction false} RootIsAncestor(b: BlockId)
    ensures Ancestor(Root, b)
  {
    if b.Digest? {
      RootIsAncestor(b.previous);
    }
  }

  /** Every block on the walk from a linked block is received and linked, and the block is under it. */
  lemma {:induction false} PathFacts(v: Validation, s: Forks, path: seq<BlockId>, id: BlockId, i: nat)
    requires Inv(v, s) && id in s.db && s.db[id].linked
    requires IsPath(path, id) && i < |path|
    ensures path[i] in s.db && s.db[path[i]].linked
    ensures path[i].Digest? ==> path[i] in s.blocks
    ensures Under(path[i], id, s.blocks.Keys) && Ancestor(path[i], id)
  {
    if i > 0 {
      PathFacts(v, s, path, id, i - 1);
      assert FlagsOk(v, s.db, s.blocks.Keys, path[i - 1]);
      assert Under(path[i], path[i - 1], s.blocks.Keys);
      UnderTransitive(path[i], path[i - 1], id, s.blocks.Keys);
      UnderIsAncestor(path[i], id, s.blocks.Keys);
    }
    assert FlagsOk(v, s.db, s.blocks.Keys, path[i]);
  }

  /** A blocked switch shows that an acceptable block numbered zero was received. */
  lemma BlockedMeansZero(v: Validation, received: set<BlockId>, b: BlockId, head: BlockId)
    requires b.Digest? && Good(v, head, received)
    ensures Blocked(b, head) ==> !NoGoodZero(v, received)
  {
    if NoGoodZero(v, received) {
      ForkPointIsAncestor(b, head);
      OnlyZeroBlocks(v, received, ForkPoint(b, head), head);
    }
  }

  /* ---------------------------------------------------------------- the longest-chain rule */

  /** The one situation in which the longest-chain rule is lost: the block completes a good chain that is
      longer than the current one, but others waited for it and they all carry smaller numbers. Only
      those are reported, so the block itself is never tried. */
  ghost predicate Overshadowed(v: Validation, s: Forks, block: FullBlock) {
    && block.Id() in s.db
    && Good(v, block.Id(), s.blocks.Keys + {block.Id()})
    && block.num > Num(s.head)
    && forall k | k in Below(block.Id(), s.blocks.Keys) :: Num(k) < block.num
  }

  /** A good block nobody waited for, above the head and the first with its number: the plain case of a push
      that moves the head. */
  ghost predicate IsHighest(v: Validation, s: Forks, block: FullBlock) {
    && block.Id() !in s.db
    && Good(v, block.Id(), s.blocks.Keys + {block.Id()})
    && block.num > Num(s.head) && forall b | b in s.blocks :: Num(b) != block.num
  }

  /** The block is good and the only one with its number. */
  ghost predicate Alone(v: Validation, received: set<BlockId>, atNumber: map<nat, seq<BlockId>>, block: FullBlock) {
    && block.num in atNumber && atNumber[block.num] == [block.Id()]
    && Good(v, block.Id(), received)
  }

  lemma NumberIsTaken(s: Forks, n: nat)
    requires Numbered(s.blocks.Keys, s.atNumber) && n in s.atNumber && s.atNumber[n] != []
    ensures exists b :: b in s.blocks && Num(b) == n
  {
    var b := s.atNumber[n][0];
    assert b in s.blocks && Num(b) == n;
  }

  lemma AloneAtNumber(s: Forks, block: FullBlock)
    requires Numbered(s.blocks.Keys, s.atNumber) && forall b | b in s.blocks :: Num(b) != block.num
    ensures AddNumber(s.atNumber, block)[block.num] == [block.Id()]
  {
    if block.num in s.atNumber && s.atNumber[block.num] != [] {
      NumberIsTaken(s, block.num);
      assert false;
    }
  }

  /** What receiving such a block reports. */
  lemma HighestIsReported(v: Validation, s: Forks, block: FullBlock, tip: BlockId, data: ForkData)
    requires Inv(v, s) && IsHighest(v, s, block) && block.Id() !in s.blocks
    requires Reported(s, block, Store(s, block).db, tip, data)
    ensures data.CanLink() && Alone(v, Store(s, block).blocks.Keys, Store(s, block).atNumber, block)
  {
    var s' := Store(s, block);
    StoreKeepsInv(v, s, block);
    AloneAtNumber(s, block);
    assert s'.blocks.Keys == s.blocks.Keys + {block.Id()};
    GoodChainCanLink(v, s', block.Id());
  }

  lemma {:induction false} ConnectedThrough(b: BlockId, received: set<BlockId>, id: BlockId)
    requires Connected(b, received + {id})
    ensures Connected(b, received) || Under(id, b, received)
  {
    if b.Digest? && b != id {
      ConnectedThrough(b.previous, received, id);
    }
  }

  lemma ParentConnected(id: BlockId, received: set<BlockId>)
    requires id.Digest? && Connected(id, received + {id})
    ensures Connected(id.previous, received)
  {
    ConnectedThrough(id.previous, received, id);
    if Under(id, id.previous, received) {
      UnderIsAncestor(id, id.previous, received);
      assert Depth(id) == 1 + Depth(id.previous);
    }
  }

  /** After a block is received the good chains are the old ones and those through the block. */
  lemma NewGoodChains(v: Validation, s: Forks, block: FullBlock, b: BlockId)
    requires Inv(v, s) && block.Id() !in s.blocks && HeadIsBest(v, s)
    requires b in s.blocks.Keys + {block.Id()} && Good(v, b, s.blocks.Keys + {block.Id()})
    ensures b == block.Id() || b in Below(block.Id(), s.blocks.Keys) || Num(b) <= Num(s.head)
    ensures b == block.Id() || b in Below(block.Id(), s.blocks.Keys) ==> NodeOr(s.db, block.previous).CanLink()
  {
    var id, received := block.Id(), s.blocks.Keys;
    ConnectedThrough(b, received, id);
    if Under(id, b, received) {
      UnderIsAncestor(id, b, received);
      ChainOkOfAncestor(v, id, b);
      AncestorOfConnected(id, b, received + {id});
      ParentConnected(id, received);
      GoodChainCanLink(v, s, id.previous);
    } else {
      assert Good(v, b, received);
    }
  }

  /** A good block extends a good block, so its number is at most one above the best. */
  lemma GoodBlockIsNext(v: Validation, s: Forks, block: FullBlock)
    requires Inv(v, s) && block.Id() !in s.blocks && HeadIsBest(v, s)
    requires Good(v, block.Id(), s.blocks.Keys + {block.Id()})
    ensures block.num <= Num(s.head) + 1
  {
    var id, received := block.Id(), s.blocks.Keys;
    ParentConnected(id, received);
    assert Good(v, id.previous, received);
  }

  /** What the report of a received block says about the longest chain. */
  lemma ReportIsEnough(v: Validation, s: Forks, block: FullBlock, tip: BlockId, data: ForkData)
    requires Inv(v, s) && block.Id() !in s.blocks && HeadIsBest(v, s)
    requires Reported(s, block, Store(s, block).db, tip, data)
    ensures var switches := data.CanLink() && Num(tip) > Num(s.head);
            if Overshadowed(v, s, block) then !switches && !HeadIsBest(v, Store(s, block))
            else GoodUpTo(v, Store(s, block).blocks.Keys, if switches then Num(tip) else Num(s.head))
  {
    var id, received, s' := block.Id(), s.blocks.Keys, Store(s, block);
    assert s'.blocks.Keys == received + {id};
    StoreReady(v, s.db, received, block);
    StoreKeepsInv(v, s, block);
    if Overshadowed(v, s, block) {
      GoodBlockIsNext(v, s, block);
      GoodChainCanLink(v, s', id);
      NewGoodChains(v, s, block, id);
      assert id in s'.blocks && Good(v, id, s'.blocks.Keys);
    } else {
      var bound := if data.CanLink() && Num(tip) > Num(s.head) then Num(tip) else Num(s.head);
      forall b | b in s'.blocks && Good(v, b, s'.blocks.Keys) ensures Num(b) <= bound {
        NewGoodChains(v, s, block, b);
        if b == id || b in Below(id, received) {
          ReportBounds(v, s, block, tip, data, b);
        }
      }
    }
  }

  lemma ReportBounds(v: Validation, s: Forks, block: FullBlock, tip: BlockId, data: ForkData, b: BlockId)
    requires Inv(v, s) && block.Id() !in s.blocks
    requires Reported(s, block, Store(s, block).db, tip, data)
    requires NodeOr(s.db, block.previous).CanLink() && !Overshadowed(v, s, block)
    requires b == block.Id() || b in Below(block.Id(), s.blocks.Keys)
    requires Good(v, b, s.blocks.Keys + {block.Id()})
    ensures Num(b) <= if data.CanLink() && Num(tip) > Num(s.head) then Num(tip) else Num(s.head)
  {
    var id, received, s' := block.Id(), s.blocks.Keys, Store(s, block);
    StoreReady(v, s.db, received, block);
    if id in s.db {
      if tip.Digest? {
        StoreEffect(s.db, received, block, tip);
        WaitingIsClean(v, s.db, received, id, tip);
      }
    } else {
      StoreEffect(s.db, received, block, id);
    }
  }

  function Initial(): Forks {
    Forks(map[Root := GENESIS], map[], map[], Root)
  }

  lemma InitialInv(v: Validation)
    ensures Inv(v, Initial()) && HeadIsBest(v, Initial())
  {
    assert FlagsOk(v, Initial().db, {}, Root);
  }

  const FIRST := FullBlock(1, Root, 0)
  const SECOND := FullBlock(2, FIRST.Id(), 0)
  const CHILD := FullBlock(1, SECOND.Id(), 0)

  /** An overshadowed block exists: a child with a smaller number arrives before its good parent. */
  lemma OvershadowHappens() returns (v: Validation, s: Forks, block: FullBlock)
    ensures Inv(v, s) && HeadIsBest(v, s) && forall b | b in s.blocks :: Num(b) > 0
    ensures block.Id() !in s.blocks && Overshadowed(v, s, block)
  {
    v, block := (b: BlockId) => Accept, SECOND;
    var s' := AfterFirst(v);
    StoreKeepsInv(v, s', CHILD);
    s := Store(s', CHILD);
    assert s.blocks.Keys == {FIRST.Id(), CHILD.Id()};
    SecondOvershadowed(v, s.blocks.Keys);
  }

  lemma AfterFirst(v: Validation) returns (s: Forks)
    requires v(FIRST.Id()).Accept?
    ensures Inv(v, s) && s.blocks.Keys == {FIRST.Id()} && s.head == FIRST.Id()
  {
    InitialInv(v);
    StoreKeepsInv(v, Initial(), FIRST);
    IncludeKeepsInv(v, Store(Initial(), FIRST), FIRST.Id());
    s := Include(Store(Initial(), FIRST), FIRST.Id());
  }

  lemma SecondOvershadowed(v: Validation, received: set<BlockId>)
    requires received == {FIRST.Id(), CHILD.Id()} && v(FIRST.Id()).Accept? && v(SECOND.Id()).Accept?
    ensures !Connected(CHILD.Id(), received) && Good(v, SECOND.Id(), received + {SECOND.Id()})
    ensures forall k | k in Below(SECOND.Id(), received) :: Num(k) < 2
  {
    assert !Under(Root, SECOND.Id(), received);
    var all := received + {SECOND.Id()};
    assert Under(Root, FIRST.Id(), all) && Under(Root, SECOND.Id(), all);
    assert ChainOk(v, FIRST.Id());
  }

  /** `b` comes after one of the blocks. */
  ghost predicate UnderAny(bad: set<BlockId>, b: BlockId, received: set<BlockId>) {
    exists f :: f in bad && Under(f, b, received)
  }

  /** Links stay, and exactly the blocks from those in `bad` on were marked invalid. */
  ghost predicate Marked(before: ForkDb, after: ForkDb, received: set<BlockId>, bad: set<BlockId>) {
    forall k | k in before ::
      k in after && after[k].linked == before[k].linked &&
      (after[k].Invalid() <==> before[k].Invalid() || UnderAny(bad, k, received))
  }

  lemma MarkedTwice(first: ForkDb, second: ForkDb, third: ForkDb, received: set<BlockId>, bad: set<BlockId>, more: set<BlockId>)
    requires Marked(first, second, received, bad) && Marked(second, third, received, more)
    ensures Marked(first, third, received, bad + more)
  {
    forall k | k in first ensures UnderAny(bad + more, k, received) <==> UnderAny(bad, k, received) || UnderAny(more, k, received) {
    }
  }

  lemma MarkedAlso(first: ForkDb, second: ForkDb, third: ForkDb, received: set<BlockId>, bad: set<BlockId>)
    requires Marked(first, second, received, {}) && Marked(second, third, received, bad)
    ensures Marked(first, third, received, bad)
  {
  }

  lemma IncludeMarksNothing(v: Validation, s: Forks, b: BlockId)
    requires Inv(v, s) && b in s.blocks && ChainOk(v, b)
    ensures Marked(s.db, Include(s, b).db, s.blocks.Keys, {})
  {
    assert FlagsOk(v, s.db, s.blocks.Keys, b);
  }

  lemma MarkInvalidMarks(s: Forks, b: BlockId)
    ensures Marked(s.db, MarkInvalid(s, b).db, s.blocks.Keys, {b})
  {
    forall k | k in s.db ensures k in Below(b, s.blocks.Keys) + {b} <==> UnderAny({b}, k, s.blocks.Keys) {
      assert b in {b};
    }
  }

  /* ---------------------------------------------------------------- a series of forks that fail */

  /** The fork is tried: it was linked and not invalid at the start, and no failure since then has spoilt it. */
  ghost predicate Tried(db: ForkDb, received: set<BlockId>, bad: set<BlockId>, id: BlockId) {
    id in db && db[id].CanLink() && !UnderAny(bad, id, received)
  }

  /** Where the head ends when the forks are tried in order, from `head` and after the failures at the blocks in
      `bad`; none when a switch pops a head numbered zero, for ever. A failed switch leaves the head before the first
      unacceptable block of the fork. */
  ghost function HeadAfter(v: Validation, db: ForkDb, received: set<BlockId>, bad: set<BlockId>, head: BlockId, queue: seq<BlockId>): Option<BlockId>
    decreases |queue|
  {
    if queue == [] then Some(head)
    else
      var id, rest := queue[0], queue[1..];
      if !id.Digest? || !Tried(db, received, bad, id) then HeadAfter(v, db, received, bad, head, rest)
      else if Blocked(id, head) then None
      else if ChainOk(v, id) then Some(id)
      else HeadAfter(v, db, received, bad + {FirstBad(v, id)}, FirstBad(v, id).previous, rest)
  }

  function QueueFrom(ids: seq<BlockId>, j: nat, later: seq<BlockId>): seq<BlockId>
    requires j <= |ids|
  {
    ids[j..] + later
  }

  lemma QueueEnds(ids: seq<BlockId>, later: seq<BlockId>)
    ensures QueueFrom(ids, 0, later) == ids + later && QueueFrom(ids, |ids|, later) == later
  {
  }

  lemma QueueNext(ids: seq<BlockId>, j: nat, later: seq<BlockId>)
    requires j < |ids|
    ensures QueueFrom(ids, j, later) != [] && QueueFrom(ids, j, later)[0] == ids[j]
    ensures QueueFrom(ids, j, later)[1..] == QueueFrom(ids, j + 1, later)
  {
  }

  lemma HeadAfterNext(v: Validation, db: ForkDb, received: set<BlockId>, bad: set<BlockId>, head: BlockId, queue: seq<BlockId>)
    requires queue != [] && queue[0].Digest?
    ensures var id, rest := queue[0], queue[1..];
            HeadAfter(v, db, received, bad, head, queue) ==
            if !Tried(db, received, bad, id) then HeadAfter(v, db, received, bad, head, rest)
            else if Blocked(id, head) then None
            else if ChainOk(v, id) then Some(id)
            else HeadAfter(v, db, received, bad + {FirstBad(v, id)}, FirstBad(v, id).previous, rest)
  {
  }

  /** A good block is tried whatever has failed before: no unacceptable block comes before it. */
  lemma GoodIsTried(v: Validation, s: Forks, bad: set<BlockId>, b: BlockId)
    requires Inv(v, s) && Good(v, b, s.blocks.Keys) && forall f | f in bad :: !ChainOk(v, f)
    ensures Tried(s.db, s.blocks.Keys, bad, b)
  {
    GoodChainCanLink(v, s, b);
    forall f | f in bad ensures !Under(f, b, s.blocks.Keys) {
      if Under(f, b, s.blocks.Keys) {
        UnderIsAncestor(f, b, s.blocks.Keys);
        ChainOkOfAncestor(v, f, b);
        assert false;
      }
    }
  }

  /** A failed switch leaves a good head. */
  lemma GoodBeforeBad(v: Validation, s: Forks, id: BlockId)
    requires Inv(v, s) && id in s.db && s.db[id].CanLink() && !ChainOk(v, id)
    ensures Good(v, FirstBad(v, id).previous, s.blocks.Keys)
  {
    var f := FirstBad(v, id);
    LinkedChain(v, s, id, id);
    AncestorOfConnected(f, id, s.blocks.Keys);
  }

  /** A series that does not come to an end was blocked by an acceptable block numbered zero. */
  lemma {:induction false} EndlessMeansZero(v: Validation, s: Forks, bad: set<BlockId>, head: BlockId, queue: seq<BlockId>)
    requires Inv(v, s) && Good(v, head, s.blocks.Keys) && HeadAfter(v, s.db, s.blocks.Keys, bad, head, queue).None?
    ensures !NoGoodZero(v, s.blocks.Keys)
    decreases |queue|
  {
    var id, rest := queue[0], queue[1..];
    if !id.Digest? || !Tried(s.db, s.blocks.Keys, bad, id) {
      EndlessMeansZero(v, s, bad, head, rest);
    } else if Blocked(id, head) {
      BlockedMeansZero(v, s.blocks.Keys, id, head);
    } else {
      GoodBeforeBad(v, s, id);
      EndlessMeansZero(v, s, bad + {FirstBad(v, id)}, FirstBad(v, id).previous, rest);
    }
  }

  predicate Falling(queue: seq<BlockId>) {
    forall i, j | 0 <= i < j < |queue| :: Num(queue[i]) >= Num(queue[j])
  }

  /** A series in order of falling numbers never passes over a good block. */
  lemma {:induction false} SeriesFindsGood(v: Validation, s: Forks, bad: set<BlockId>, head: BlockId, queue: seq<BlockId>, b: BlockId)
    requires Inv(v, s) && (forall f | f in bad :: !ChainOk(v, f)) && Falling(queue)
    requires b in queue && b.Digest? && Good(v, b, s.blocks.Keys)
    requires HeadAfter(v, s.db, s.blocks.Keys, bad, head, queue).Some?
    ensures Num(HeadAfter(v, s.db, s.blocks.Keys, bad, head, queue).value) >= Num(b)
    decreases |queue|
  {
    var id, rest := queue[0], queue[1..];
    if id == b {
      GoodIsTried(v, s, bad, b);
    } else {
      assert b in rest;
      var i :| 0 <= i < |queue| && queue[i] == b;
      if !id.Digest? || !Tried(s.db, s.blocks.Keys, bad, id) {
        SeriesFindsGood(v, s, bad, head, rest, b);
      } else if !ChainOk(v, id) {
        SeriesFindsGood(v, s, bad + {FirstBad(v, id)}, FirstBad(v, id).previous, rest, b);
      }
    }
  }

  /** The forks in the order they are tried: by falling number, and in order of arrival for one number. */
  function Queue(atNumber: map<nat, seq<BlockId>>, highest: nat): seq<BlockId> {
    if highest == 0 then [] else (if highest in atNumber then atNumber[highest] else []) + Queue(atNumber, highest - 1)
  }

  lemma {:induction false} QueueIsComplete(s: Forks, highest: nat)
    requires Numbered(s.blocks.Keys, s.atNumber)
    ensures forall b | b in Queue(s.atNumber, highest) :: b in s.blocks && 0 < Num(b) <= highest
    ensures forall b | b in s.blocks && 0 < Num(b) <= highest :: b in Queue(s.atNumber, highest)
    ensures Falling(Queue(s.atNumber, highest))
  {
    if highest > 0 {
      QueueIsComplete(s, highest - 1);
      var now, later := if highest in s.atNumber then s.atNumber[highest] else [], Queue(s.atNumber, highest - 1);
      forall b | b in now ensures b in s.blocks && Num(b) == highest {
      }
      FallingAppend(now, later, highest);
    }
  }

  lemma FallingAppend(now: seq<BlockId>, later: seq<BlockId>, n: nat)
    requires (forall b | b in now :: Num(b) == n) && (forall b | b in later :: Num(b) <= n) && Falling(later)
    ensures Falling(now + later)
  {
    var queue := now + later;
    forall i, j | 0 <= i < j < |queue| ensures Num(queue[i]) >= Num(queue[j]) {
      assert queue[i] in (if i < |now| then now else later) && queue[j] in (if j < |now| then now else later);
    }
  }

  /** What a series from number `highest` down promises: the head does not end lower, and if no good block is above
      `highest` it ends at a best one. */
  lemma SeriesIsSafe(v: Validation, s: Forks, highest: nat)
    requires Inv(v, s) && Num(s.head) <= highest
    ensures var h := HeadAfter(v, s.db, s.blocks.Keys, {}, s.head, Queue(s.atNumber, highest));
            if h.None? then !NoGoodZero(v, s.blocks.Keys)
            else Num(h.value) >= Num(s.head) && (GoodUpTo(v, s.blocks.Keys, highest) ==> GoodUpTo(v, s.blocks.Keys, Num(h.value)))
  {
    var queue := Queue(s.atNumber, highest);
    var h := HeadAfter(v, s.db, s.blocks.Keys, {}, s.head, queue);
    QueueIsComplete(s, highest);
    if h.None? {
      EndlessMeansZero(v, s, {}, s.head, queue);
    } else {
      forall b | b in queue && Good(v, b, s.blocks.Keys) ensures Num(h.value) >= Num(b) {
        assert b.Digest?;
        SeriesFindsGood(v, s, {}, s.head, queue, b);
      }
      assert Num(s.head) > 0 ==> s.head in s.blocks && Good(v, s.head, s.blocks.Keys);
    }
  }

  /* ---------------------------------------------------------------- the order of arrival */

  ghost predicate IsBefore(arrivals: seq<BlockId>, a: BlockId, b: BlockId) {
    exists p, q :: 0 <= p < q < |arrivals| && arrivals[p] == a && arrivals[q] == b
  }

  /** The arrivals are the received blocks, each once, and the blocks of a number are listed in this order. */
  ghost predicate Arrived(arrivals: seq<BlockId>, received: set<BlockId>, atNumber: map<nat, seq<BlockId>>) {
    && (forall i, j | 0 <= i < j < |arrivals| :: arrivals[i] != arrivals[j])
    && (forall b :: b in arrivals <==> b in received)
    && (forall n, i, j | n in atNumber && 0 <= i < j < |atNumber[n]| :: IsBefore(arrivals, atNumber[n][i], atNumber[n][j]))
  }

  lemma ArrivedNext(arrivals: seq<BlockId>, received: set<BlockId>, atNumber: map<nat, seq<BlockId>>, block: FullBlock)
    requires Arrived(arrivals, received, atNumber) && Numbered(received, atNumber) && block.Id() !in received
    ensures Arrived(arrivals + [block.Id()], received + {block.Id()}, AddNumber(atNumber, block))
  {
    var id, more, atNumber' := block.Id(), arrivals + [block.Id()], AddNumber(atNumber, block);
    assert more[|arrivals|] == id;
    forall n, i, j | n in atNumber' && 0 <= i < j < |atNumber'[n]| ensures IsBefore(more, atNumber'[n][i], atNumber'[n][j]) {
      var a := atNumber[n][i];
      if n == block.num && j == |atNumber'[n]| - 1 {
        assert a in arrivals;
        var p :| 0 <= p < |arrivals| && arrivals[p] == a;
        assert more[p] == a;
      } else {
        assert IsBefore(arrivals, a, atNumber[n][j]);
        var p, q :| 0 <= p < q < |arrivals| && arrivals[p] == a && arrivals[q] == atNumber[n][j];
        assert more[p] == a && more[q] == atNumber[n][j];
      }
    }
  }

  /** The block arrived before all other acceptable blocks of its number. */
  ghost predicate FirstOfItsNumber(v: Validation, arrivals: seq<BlockId>, head: BlockId) {
    forall b | b in arrivals && Num(b) == Num(head) && Good(v, b, set a | a in arrivals) :: b == head || IsBefore(arrivals, head, b)
  }

  /** A series that meets a good block ends there or earlier. */
  lemma {:induction false} SeriesTakesFirst(v: Validation, s: Forks, bad: set<BlockId>, head: BlockId, queue: seq<BlockId>, i: nat) returns (j: nat)
    requires Inv(v, s) && (forall f | f in bad :: !ChainOk(v, f))
    requires i < |queue| && queue[i].Digest? && Good(v, queue[i], s.blocks.Keys)
    requires HeadAfter(v, s.db, s.blocks.Keys, bad, head, queue).Some?
    ensures j <= i && HeadAfter(v, s.db, s.blocks.Keys, bad, head, queue) == Some(queue[j])
    decreases |queue|
  {
    var id, rest := queue[0], queue[1..];
    if i == 0 {
      GoodIsTried(v, s, bad, id);
      j := 0;
    } else if !id.Digest? || !Tried(s.db, s.blocks.Keys, bad, id) {
      j := SeriesTakesFirst(v, s, bad, head, rest, i - 1);
      j := j + 1;
    } else if ChainOk(v, id) {
      j := 0;
    } else {
      j := SeriesTakesFirst(v, s, bad + {FirstBad(v, id)}, FirstBad(v, id).previous, rest, i - 1);
      j := j + 1;
    }
  }

  /** Where the blocks of one number stand in the queue. */
  lemma {:induction false} QueueSegment(s: Forks, highest: nat, n: nat) returns (k: nat)
    requires Numbered(s.blocks.Keys, s.atNumber) && 0 < n <= highest && n in s.atNumber
    ensures k + |s.atNumber[n]| <= |Queue(s.atNumber, highest)|
    ensures forall i | 0 <= i < |s.atNumber[n]| :: Queue(s.atNumber, highest)[k + i] == s.atNumber[n][i]
    ensures forall i | 0 <= i < k :: Num(Queue(s.atNumber, highest)[i]) > n
  {
    if n == highest {
      k := 0;
    } else {
      k := QueueSegment(s, highest - 1, n);
      k := k + |if highest in s.atNumber then s.atNumber[highest] else []|;
    }
  }

  /** The numbers of a good chain step down by one, so it has a good block of every lower number from one on. */
  lemma {:induction false} GoodOfNumber(v: Validation, b: BlockId, received: set<BlockId>, n: nat) returns (c: BlockId)
    requires Good(v, b, received) && 1 <= n <= Num(b)
    ensures Good(v, c, received) && Num(c) == n && c.Digest? && c in received
  {
    if Num(b) == n {
      c := b;
    } else {
      c := GoodOfNumber(v, b.previous, received, n);
    }
  }

  lemma FirstArrivalWins(v: Validation, s: Forks, arrivals: seq<BlockId>, highest: nat, h: BlockId)
    requires Inv(v, s) && Arrived(arrivals, s.blocks.Keys, s.atNumber) && highest > 0
    requires HeadAfter(v, s.db, s.blocks.Keys, {}, s.head, Queue(s.atNumber, highest)) == Some(h)
    requires Good(v, h, s.blocks.Keys) && Num(h) > 0
    ensures FirstOfItsNumber(v, arrivals, h)
  {
    assert s.blocks.Keys == set b | b in arrivals;
    HeadIsQueued(v, s, highest, h);
    forall b | b in arrivals && Num(b) == Num(h) && Good(v, b, s.blocks.Keys) ensures b == h || IsBefore(arrivals, h, b) {
      FirstIsTaken(v, s, arrivals, highest, h, b);
    }
  }

  lemma FirstIsTaken(v: Validation, s: Forks, arrivals: seq<BlockId>, highest: nat, h: BlockId, b: BlockId)
    requires Inv(v, s) && Arrived(arrivals, s.blocks.Keys, s.atNumber) && 0 < Num(h) <= highest
    requires HeadAfter(v, s.db, s.blocks.Keys, {}, s.head, Queue(s.atNumber, highest)) == Some(h)
    requires b in s.blocks && Num(b) == Num(h) && Good(v, b, s.blocks.Keys)
    ensures b == h || IsBefore(arrivals, h, b)
  {
    var i :| 0 <= i < |s.atNumber[Num(h)]| && s.atNumber[Num(h)][i] == b;
    var m := TakenAtNumber(v, s, highest, h, i);
  }

  lemma TakenAtNumber(v: Validation, s: Forks, highest: nat, h: BlockId, i: nat) returns (m: nat)
    requires Inv(v, s) && 0 < Num(h) <= highest && Num(h) in s.atNumber && i < |s.atNumber[Num(h)]|
    requires HeadAfter(v, s.db, s.blocks.Keys, {}, s.head, Queue(s.atNumber, highest)) == Some(h)
    requires Good(v, s.atNumber[Num(h)][i], s.blocks.Keys)
    ensures m <= i && s.atNumber[Num(h)][m] == h
  {
    var k := QueueSegment(s, highest, Num(h));
    var j := SeriesTakesFirst(v, s, {}, s.head, Queue(s.atNumber, highest), k + i);
    m := InSegment(Queue(s.atNumber, highest), s.atNumber[Num(h)], Num(h), k, i, j);
  }

  lemma InSegment(queue: seq<BlockId>, segment: seq<BlockId>, n: nat, k: nat, i: nat, j: nat) returns (m: nat)
    requires k + |segment| <= |queue| && i < |segment| && j <= k + i && Num(queue[j]) == n
    requires forall x | 0 <= x < |segment| :: queue[k + x] == segment[x]
    requires forall x | 0 <= x < k :: Num(queue[x]) > n
    ensures m <= i && segment[m] == queue[j]
  {
    m := j - k;
    assert queue[k + m] == segment[m];
  }

  lemma HeadIsQueued(v: Validation, s: Forks, highest: nat, h: BlockId)
    requires Inv(v, s) && highest > 0 && Good(v, h, s.blocks.Keys) && Num(h) > 0
    requires HeadAfter(v, s.db, s.blocks.Keys, {}, s.head, Queue(s.atNumber, highest)) == Some(h)
    ensures Num(h) <= highest
  {
    var queue := Queue(s.atNumber, highest);
    QueueIsComplete(s, highest);
    var c := GoodOfNumber(v, h, s.blocks.Keys, if Num(h) <= highest then Num(h) else highest);
    var i :| 0 <= i < |queue| && queue[i] == c;
    var j := SeriesTakesFirst(v, s, {}, s.head, queue, i);
    assert queue[j] in queue;
  }

  /** Forks are tried from number `n` down when the block arrives. */
  ghost predicate TriesFrom(s: Forks, block: FullBlock, n: nat) {
    n > Num(s.head) && exists tip, data :: Reported(s, block, Store(s, block).db, tip, data) && data.CanLink() && Num(tip) == n
  }

  /** However the marking pass is ordered, it reports the same number. */
  lemma SameReport(v: Validation, s: Forks, block: FullBlock, tip: BlockId, data: ForkData, n: nat)
    requires Inv(v, s) && block.Id() !in s.blocks && Reported(s, block, Store(s, block).db, tip, data) && TriesFrom(s, block, n)
    ensures data.CanLink() && n == Num(tip)
  {
    var tip', data' :| Reported(s, block, Store(s, block).db, tip', data') && data'.CanLink() && Num(tip') == n;
    StoreReady(v, s.db, s.blocks.Keys, block);
    if block.Id() in s.db && NodeOr(s.db, block.previous).CanLink() {
      assert tip.Digest?;
      StoreEffect(s.db, s.blocks.Keys, block, tip);
      WaitingIsClean(v, s.db, s.blocks.Keys, block.Id(), tip);
    }
  }

  /** The head after a push; none when the push does not return. */
  ghost function PushOutcome(v: Validation, s: Forks, block: FullBlock): Option<BlockId> {
    var s' := Store(s, block);
    if n :| TriesFrom(s, block, n) then HeadAfter(v, s'.db, s'.blocks.Keys, {}, s.head, Queue(s'.atNumber, n))
    else Some(s.head)
  }

  lemma OutcomeIs(v: Validation, s: Forks, block: FullBlock, tip: BlockId, data: ForkData)
    requires Inv(v, s) && block.Id() !in s.blocks && Reported(s, block, Store(s, block).db, tip, data)
    ensures var s' := Store(s, block);
            PushOutcome(v, s, block) ==
            if data.CanLink() && Num(tip) > Num(s.head) then HeadAfter(v, s'.db, s'.blocks.Keys, {}, s.head, Queue(s'.atNumber, Num(tip)))
            else Some(s.head)
  {
    forall n | TriesFrom(s, block, n) ensures data.CanLink() && n == Num(tip) {
      SameReport(v, s, block, tip, data, n);
    }
    if data.CanLink() && Num(tip) > Num(s.head) {
      assert TriesFrom(s, block, Num(tip));
    }
  }

  /** A block nobody waited for that is not above the head leaves the head alone. */
  lemma LowBlockIsPassed(v: Validation, s: Forks, block: FullBlock)
    requires Inv(v, s) && block.Id() !in s.db && block.num <= Num(s.head)
    ensures PushOutcome(v, s, block) == Some(s.head)
  {
    var id, s' := block.Id(), Store(s, block);
    ReportsItself(v, s, block);
    OutcomeIs(v, s, block, id, s'.db[id]);
  }

  /** A good block above the head that is the first with its number becomes the head, unless the switch to it is
      blocked. */
  lemma HighestWins(v: Validation, s: Forks, block: FullBlock)
    requires Inv(v, s) && IsHighest(v, s, block)
    ensures PushOutcome(v, s, block) == if Blocked(block.Id(), s.head) then None else Some(block.Id())
  {
    var id, s' := block.Id(), Store(s, block);
    ReportsItself(v, s, block);
    OutcomeIs(v, s, block, id, s'.db[id]);
    HighestIsReported(v, s, block, id, s'.db[id]);
    var queue := Queue(s'.atNumber, block.num);
    assert queue == [id] + Queue(s'.atNumber, block.num - 1);
    HeadAfterNext(v, s'.db, s'.blocks.Keys, {}, s.head, queue);
  }

  lemma ReportsItself(v: Validation, s: Forks, block: FullBlock)
    requires Inv(v, s) && block.Id() !in s.db
    ensures block.Id() !in s.blocks && block.Id() in Store(s, block).db
    ensures Reported(s, block, Store(s, block).db, block.Id(), Store(s, block).db[block.Id()])
  {
    StoreReady(v, s.db, s.blocks.Keys, block);
    StoreEffect(s.db, s.blocks.Keys, block, block.Id());
  }

  /** A block that was neither received nor named as a previous block has no node. */
  lemma NotMentioned(v: Validation, s: Forks, b: BlockId)
    requires Inv(v, s) && b.Digest? && b !in s.blocks && forall c | c in s.blocks :: c.previous != b
    ensures b !in s.db
  {
    assert b in s.db ==> IsWaitedFor(s.db, b) && s.db[b].next == {};
  }

  lemma {:induction false} ParentIsAncestor(parent: BlockId, child: BlockId, b: BlockId)
    requires child.Digest? && parent == child.previous && Ancestor(child, b)
    ensures Ancestor(parent, b)
  {
    if child != b {
      ParentIsAncestor(parent, child, b.previous);
    }
  }

  class ChainDatabase {
    const validation: Validation

    var forkDb: ForkDb
    var blocks: map<BlockId, FullBlock>
    var forkNumberDb: map<nat, seq<BlockId>>
    var headId: BlockId
    var headNum: nat
    var revalidatable: set<BlockId>
    /** The received blocks in the order they arrived. */
    ghost var arrivals: seq<BlockId>

    ghost function State(): Forks
      reads this
    {
      Forks(forkDb, blocks, forkNumberDb, headId)
    }

    /** One level of the linking pass: marks its blocks, collects their next blocks and keeps the
        highest block seen so far. */
    method MarkLevelAsLinked(level: set<BlockId>, tipSoFar: BlockId, dataSoFar: ForkData,
                             ghost start: ForkDb, ghost done: set<BlockId>)
      returns (pending: set<BlockId>, tip: BlockId, data: ForkData)
      requires Shape(start, blocks.Keys) && level <= blocks.Keys
      requires forall b | b in blocks :: b == blocks[b].Id()
      requires forkDb == Link(start, done) && Highest(tipSoFar, dataSoFar, forkDb, done)
      modifies this`forkDb
      ensures forkDb == Link(start, done + level)
      ensures pending == Children(level, blocks.Keys)
      ensures Highest(tip, data, forkDb, done + level)
    {
      var todo := level;
      pending, tip, data := {}, tipSoFar, dataSoFar;
      while todo != {}
        invariant todo <= level
        invariant forkDb == Link(start, done + (level - todo))
        invariant pending == Children(level - todo, blocks.Keys)
        invariant Highest(tip, data, forkDb, done + (level - todo))
      {
        var nextId :| nextId in todo;
        LevelStep(start, blocks.Keys, done, level, todo, nextId);
        var record := forkDb[nextId].(linked := true);
        pending := pending + record.next;
        forkDb := forkDb[nextId := record];
        if blocks[nextId].num > Num(tip) {
          tip, data := nextId, record;
        }
        todo := todo - {nextId};
      }
      assert level - todo == level;
    }

    /** Marks a set of sibling blocks and everything after them as linked, level by level. */
    method RecursiveMarkAsLinked(ids: set<BlockId>, ghost base: BlockId) returns (tip: BlockId, data: ForkData)
      requires Shape(forkDb, blocks.Keys) && base in forkDb && ids == forkDb[base].next
      requires forall b | b in blocks :: b == blocks[b].Id()
      modifies this`forkDb
      ensures forkDb == Link(old(forkDb), Below(base, blocks.Keys))
      ensures Highest(tip, data, forkDb, Below(base, blocks.Keys))
    {
      ghost var received, done := blocks.Keys, {};
      tip, data := Root, FRESH;
      var nextIds := ids;
      FrontierStarts(forkDb, received, base);
      assert forkDb == Link(forkDb, {});
      while nextIds != {}
        invariant Frontier(base, received, done, nextIds)
        invariant forkDb == Link(old(forkDb), done)
        invariant Highest(tip, data, forkDb, done)
        decreases Below(base, received) - done
      {
        FrontierAdvances(base, received, done, nextIds);
        var pending;
        pending, tip, data := MarkLevelAsLinked(nextIds, tip, data, old(forkDb), done);
        done := done + nextIds;
        nextIds := pending;
      }
      FrontierDone(base, received, done);
    }

    /** Marks a set of sibling blocks and everything after them as invalid, level by level. The
        precondition is the assertion of the original: no block found valid before is overwritten. */
    method RecursiveMarkAsInvalid(ids: set<BlockId>, ghost base: BlockId)
      requires Shape(forkDb, blocks.Keys) && base in forkDb && ids == forkDb[base].next
      requires forall k | k in Below(base, blocks.Keys) :: forkDb[k].valid != Some(true)
      modifies this`forkDb
      ensures forkDb == Invalidate(old(forkDb), Below(base, blocks.Keys))
    {
      ghost var received, done := blocks.Keys, {};
      var nextIds := ids;
      FrontierStarts(forkDb, received, base);
      assert forkDb == Invalidate(forkDb, {});
      while nextIds != {}
        invariant Frontier(base, received, done, nextIds)
        invariant forkDb == Invalidate(old(forkDb), done)
        decreases Below(base, received) - done
      {
        var pending, todo := {}, nextIds;
        FrontierAdvances(base, received, done, nextIds);
        while todo != {}
          invariant todo <= nextIds
          invariant forkDb == Invalidate(old(forkDb), done + (nextIds - todo))
          invariant pending == Children(nextIds - todo, received)
        {
          var nextId :| nextId in todo;
          LevelStep(old(forkDb), received, done, nextIds, todo, nextId);
          var record := forkDb[nextId];
          assert record.valid != Some(true);
          record := record.(valid := Some(false));
          pending := pending + record.next;
          forkDb := forkDb[nextId := record];
          todo := todo - {nextId};
        }
        assert nextIds - todo == nextIds;
        done := done + nextIds;
        nextIds := pending;
      }
      FrontierDone(base, received, done);
    }

    /** The tree invariant and a head header that matches the head id. */
    ghost predicate Consistent()
      reads this
    {
      && Inv(validation, State())
      && headNum == Num(headId)
    }

    /** Every reachable state: in addition the blocks of one number are listed in the order they arrived. */
    ghost predicate Valid()
      reads this
    {
      Consistent() && Arrived(arrivals, blocks.Keys, forkNumberDb)
    }

    constructor (v: Validation)
      ensures Valid() && validation == v && blocks == map[] && headId == Root && revalidatable == {} && arrivals == []
      ensures HeadIsBest(validation, State())
    {
      validation := v;
      forkDb := map[Root := GENESIS];
      blocks, forkNumberDb, headId, headNum, revalidatable, arrivals := map[], map[], Root, 0, {}, [];
      new;
      assert FlagsOk(validation, forkDb, {}, Root);
    }

    /** Stores the block under its id and number, adds it to the next-blocks of its previous block
        (a new placeholder when nobody mentioned that one yet) and writes its own node. */
    method AttachBlock(block: FullBlock) returns (wasPlaceholder: bool, prev: ForkData, current: ForkData)
      requires block.Id() in forkDb ==> !forkDb[block.Id()].linked
      modifies this`forkDb, this`blocks, this`forkNumberDb, this`arrivals
      ensures blocks == old(blocks)[block.Id() := block]
      ensures forkNumberDb == AddNumber(old(forkNumberDb), block) && arrivals == old(arrivals) + [block.Id()]
      ensures forkNumberDb.Keys == old(forkNumberDb).Keys + {block.num} && forall n | n in forkNumberDb ::
                forkNumberDb[n] == (if n in old(forkNumberDb) then old(forkNumberDb)[n] else []) + (if n == block.num then [block.Id()] else [])
      ensures forkDb == Attach(old(forkDb), block) && current == forkDb[block.Id()]
      ensures wasPlaceholder <==> block.Id() in old(forkDb)
      ensures prev == forkDb[block.previous]
    {
      var id := block.Id();
      blocks := blocks[id := block];
      var parallel := if block.num in forkNumberDb then forkNumberDb[block.num] else [];
      forkNumberDb := forkNumberDb[block.num := parallel + [id]];
      arrivals := arrivals + [id];

      prev := if block.previous in forkDb then forkDb[block.previous] else FRESH;
      prev := prev.(next := prev.next + {id});
      forkDb := forkDb[block.previous := prev];

      wasPlaceholder := id in forkDb;
      if wasPlaceholder {
        current := forkDb[id].(known := true);
        if prev.linked {
          current := current.(linked := true);
          if prev.Invalid() {
            current := current.(valid := Some(false));
          }
        }
      } else {
        current := FRESH.(known := true, linked := prev.linked);
        if prev.Invalid() {
          current := current.(valid := Some(false));
        }
      }
      forkDb := forkDb[id := current];
    }

    /** Puts a block that was not seen before into the tree and reports the tip of the fork it
        completes, or the block itself. */
    method StoreAndIndex(block: FullBlock) returns (tip: BlockId, data: ForkData)
      requires Shape(forkDb, blocks.Keys) && AllFlagsOk(validation, forkDb, blocks.Keys)
      requires block.Id() !in blocks && forall b | b in blocks :: b == blocks[b].Id()
      modifies this`forkDb, this`blocks, this`forkNumberDb, this`arrivals
      ensures State() == Store(old(State()), block) && arrivals == old(arrivals) + [block.Id()]
      ensures Reported(old(State()), block, forkDb, tip, data)
    {
      StorePlan(validation, forkDb, blocks.Keys, block);
      var wasPlaceholder, prev, current := AttachBlock(block);
      assert blocks.Keys == old(blocks).Keys + {block.Id()};
      if wasPlaceholder && prev.linked && prev.Invalid() {
        RecursiveMarkAsInvalid(current.next, block.Id());
        tip, data := block.Id(), current;
      } else if wasPlaceholder && prev.linked {
        tip, data := RecursiveMarkAsLinked(current.next, block.Id());
      } else {
        tip, data := block.Id(), current;
      }
    }

    /** Marks a block that failed to extend the chain, and everything after it. */
    method MarkBlockInvalid(id: BlockId)
      requires Shape(forkDb, blocks.Keys) && id in forkDb && forkDb[id].valid != Some(true)
      requires forall k | k in Below(id, blocks.Keys) :: forkDb[k].valid != Some(true)
      modifies this`forkDb
      ensures State() == MarkInvalid(old(State()), id)
    {
      MarksKeepShape(forkDb, blocks.Keys, {id});
      var data := forkDb[id];
      forkDb := forkDb[id := data.(valid := Some(false))];
      assert forkDb == Invalidate(old(forkDb), {id});
      RecursiveMarkAsInvalid(data.next, id);
    }

    /** The path from a linked block back to its nearest included proper ancestor, block first. */
    method GetForkHistory(id: BlockId) returns (history: seq<BlockId>)
      requires Inv(validation, State()) && id in blocks && forkDb[id].linked
      ensures IsPath(history, id) && |history| >= 2
      ensures history[|history| - 1] == ForkPoint(id, headId) && Ancestor(history[|history| - 1], headId)
      ensures forall i | 0 < i < |history| - 1 :: history[i] in blocks && !Ancestor(history[i], headId)
    {
      history := [id];
      var nextId := id;
      while true
        invariant nextId in blocks && forkDb[nextId].linked
        invariant IsPath(history, id) && history[|history| - 1] == nextId && ForkPoint(nextId, headId) == ForkPoint(id, headId)
        invariant forall i | 0 < i < |history| :: history[i] in blocks && !Ancestor(history[i], headId)
        decreases nextId
      {
        var previous := blocks[nextId].previous;
        assert FlagsOk(validation, forkDb, blocks.Keys, nextId);
        history := history + [previous];
        if previous == Root {
          RootIsAncestor(headId);
          return;
        }
        var data := forkDb[previous];
        assert data.linked;
        if data.included {
          return;
        }
        assert FlagsOk(validation, forkDb, blocks.Keys, previous);
        nextId := previous;
      }
    }

    /** Takes the head block off the chain; a head numbered zero is left alone. */
    method PopBlock()
      requires Inv(validation, State()) && headNum == Num(headId)
      requires headNum != 0 ==> headId in blocks
      modifies this`forkDb, this`headId, this`headNum
      ensures Inv(validation, State()) && headNum == Num(headId)
      ensures State() == if old(headNum) == 0 then old(State()) else Pop(old(State()))
    {
      if headNum == 0 {
        return;
      }
      PopKeepsInv(validation, State());
      forkDb := forkDb[headId := forkDb[headId].(included := false)];
      headId := blocks[headId].previous;
      headNum := if headId == Root then 0 else blocks[headId].num;
    }

    /** Tries to put a block on top of the current head: on success it is the new head, otherwise it
        is marked invalid together with everything after it. */
    method ExtendChain(block: FullBlock) returns (verdict: Verdict)
      requires Inv(validation, State()) && headNum == Num(headId)
      requires block.Id() in blocks && block.previous == headId && forkDb[block.Id()].linked
      modifies this`forkDb, this`headId, this`headNum
      ensures Inv(validation, State()) && headNum == Num(headId)
      ensures verdict.Accept? <==> Extends(validation, block.Id())
      ensures State() == if verdict.Accept? then Include(old(State()), block.Id()) else MarkInvalid(old(State()), block.Id())
    {
      var id := block.Id();
      if block.num > 1 && block.num != headNum + 1 {
        verdict := Reject;
      } else {
        verdict := validation(id);
      }
      if verdict.Accept? {
        IncludeKeepsInv(validation, State(), id);
        forkDb := forkDb[id := forkDb[id].(included := true, valid := Some(true))];
        headId, headNum := id, block.num;
      } else {
        MarkInvalidKeepsInv(validation, State(), id);
        MarkBlockInvalid(id);
      }
    }

    /** Pops until the given included block is the head. It is stuck exactly when a block on the way is numbered
        zero: a pop then changes nothing, and neither does any later one. */
    method PopTo(target: BlockId) returns (stuck: bool)
      requires Consistent() && Ancestor(target, headId)
      modifies this`forkDb, this`headId, this`headNum
      ensures Consistent() && (stuck <==> !Poppable(target, old(headId)))
      ensures if stuck then headNum == 0 && headId != target && Ancestor(headId, old(headId)) else headId == target
      ensures Marked(old(forkDb), forkDb, blocks.Keys, {})
    {
      while target != headId
        invariant Consistent() && Ancestor(target, headId) && Ancestor(headId, old(headId))
        invariant Poppable(target, headId) == Poppable(target, old(headId))
        invariant Marked(old(forkDb), forkDb, blocks.Keys, {})
        decreases headId
      {
        ghost var before, mid := headId, forkDb;
        var moved := PopHead();
        MarkedAlso(old(forkDb), mid, forkDb, blocks.Keys, {});
        if !moved {
          return true;
        }
        ParentIsAncestor(headId, before, old(headId));
      }
      stuck := false;
    }

    /** One pop: it moves the head exactly when the head is not numbered zero. */
    method PopHead() returns (moved: bool)
      requires Consistent() && headId.Digest?
      modifies this`forkDb, this`headId, this`headNum
      ensures Consistent() && Marked(old(forkDb), forkDb, blocks.Keys, {}) && (moved <==> old(headNum) != 0)
      ensures headId == if moved then old(headId).previous else old(headId)
    {
      var before := headId;
      assert headId in blocks && headId in forkDb;
      PopBlock();
      moved := headId != before;
    }

    /** Extends the chain along a fork, oldest block first, and stops at the first block that fails. */
    method ExtendAlong(history: seq<BlockId>, id: BlockId) returns (verdict: Verdict)
      requires Consistent() && id in blocks && forkDb[id].linked
      requires IsPath(history, id) && |history| >= 2 && headId == history[|history| - 1]
      modifies this`forkDb, this`headId, this`headNum
      ensures Consistent()
      ensures verdict.Accept? <==> ChainOk(validation, id)
      ensures verdict.Accept? ==> headId == id && Marked(old(forkDb), forkDb, blocks.Keys, {})
      ensures !verdict.Accept? ==> FailedAt(old(forkDb), id)
    {
      var i := |history| - 2;
      while i >= 0
        invariant -1 <= i <= |history| - 2 && headId == history[i + 1]
        invariant Consistent() && forkDb[id].linked && Marked(old(forkDb), forkDb, blocks.Keys, {})
      {
        PathFacts(validation, State(), history, id, i);
        verdict := ExtendNext(history[i], old(forkDb));
        if !verdict.Accept? {
          FirstBadIs(validation, history[i], id);
          return;
        }
        i := i - 1;
      }
      verdict := Accept;
    }

    /** The switch to the block has failed: the head is left before its first unacceptable block, and that one and
        everything after it are marked invalid. */
    ghost predicate FailedAt(before: ForkDb, id: BlockId)
      reads this
    {
      && !ChainOk(validation, id) && headId == FirstBad(validation, id).previous
      && Marked(before, forkDb, blocks.Keys, {FirstBad(validation, id)})
    }

    /** One step of the extension, with the marks it makes. */
    method ExtendNext(id: BlockId, ghost start: ForkDb) returns (verdict: Verdict)
      requires Consistent() && id in blocks && id.previous == headId && forkDb[id].linked && Marked(start, forkDb, blocks.Keys, {})
      modifies this`forkDb, this`headId, this`headNum
      ensures Consistent() && (verdict.Accept? <==> ChainOk(validation, id))
      ensures ChainOk(validation, id.previous) && headId == if verdict.Accept? then id else old(headId)
      ensures Marked(start, forkDb, blocks.Keys, if verdict.Accept? then {} else {id})
    {
      ghost var s := State();
      verdict := ExtendChain(blocks[id]);
      if verdict.Accept? {
        IncludeMarksNothing(validation, s, id);
        MarkedAlso(start, s.db, forkDb, blocks.Keys, {});
      } else {
        MarkInvalidMarks(s, id);
        MarkedAlso(start, s.db, forkDb, blocks.Keys, {id});
      }
    }

    /** Moves the chain to the given block: pops to the fork point, then extends block by block. Unless the pops
        are stuck, it succeeds exactly when every block of the fork is acceptable; otherwise the chain is left on
        the part that worked and the block is marked invalid. */
    method SwitchToFork(id: BlockId) returns (verdict: Verdict, stuck: bool)
      requires Consistent() && id in blocks && forkDb[id].linked
      modifies this`forkDb, this`headId, this`headNum
      ensures Consistent() && (stuck <==> Blocked(id, old(headId)))
      ensures !stuck ==> (verdict.Accept? <==> ChainOk(validation, id))
      ensures !stuck && verdict.Accept? ==> headId == id
      ensures !stuck && !verdict.Accept? ==> FailedAt(old(forkDb), id)
    {
      if id == headId {
        return Accept, false;
      }
      var history := GetForkHistory(id);
      verdict := Accept;
      stuck := PopTo(history[|history| - 1]);
      if !stuck {
        ghost var popped := forkDb;
        verdict := ExtendAlong(history, id);
        if !verdict.Accept? {
          MarkedAlso(old(forkDb), popped, forkDb, blocks.Keys, {FirstBad(validation, id)});
        }
      }
    }

    /** Tries one fork, if it can be linked. A failure caused by a block from the future is remembered. */
    method TryFork(pushed: BlockId, id: BlockId) returns (switched: bool, stuck: bool)
      requires Consistent() && id in blocks
      modifies this`forkDb, this`headId, this`headNum, this`revalidatable
      ensures Consistent() && (stuck <==> old(forkDb[id].CanLink()) && Blocked(id, old(headId)))
      ensures switched ==> !stuck && headId == id
      ensures !switched && !stuck ==>
                if old(forkDb[id].CanLink()) then FailedAt(old(forkDb), id) else headId == old(headId) && forkDb == old(forkDb)
      ensures switched ==> old(forkDb[id].CanLink()) && ChainOk(validation, id)
    {
      if !forkDb[id].CanLink() {
        return false, false;
      }
      var verdict;
      verdict, stuck := SwitchToFork(id);
      if stuck {
        return false, true;
      }
      if verdict.FromFuture? {
        revalidatable := revalidatable + {pushed};
      }
      switched := verdict.Accept?;
    }

    /** All received blocks with the given number. */
    method FetchBlocksAtNumber(n: nat) returns (parallel: seq<BlockId>)
      requires Consistent()
      ensures forall i | 0 <= i < |parallel| :: parallel[i] in blocks && Num(parallel[i]) == n
      ensures forall b | b in blocks && Num(b) == n :: b in parallel
      ensures parallel == if n in forkNumberDb then forkNumberDb[n] else []
    {
      parallel := if n in forkNumberDb then forkNumberDb[n] else [];
    }

    /** Tries every fork that ends at the given number, in the order the blocks arrived. The ghost parameters are the
        marks at the start of the series, the failures so far and the forks that are still to come. */
    method TryForksAt(pushed: BlockId, n: nat, ghost start: ForkDb, ghost failed: set<BlockId>, ghost later: seq<BlockId>)
      returns (switched: bool, stuck: bool, ghost failed': set<BlockId>)
      requires Consistent() && Marked(start, forkDb, blocks.Keys, failed) && blocks.Keys <= start.Keys
      modifies this`forkDb, this`headId, this`headNum, this`revalidatable
      ensures Consistent() && (switched ==> !stuck && headNum == n)
      ensures !switched && !stuck ==> Marked(start, forkDb, blocks.Keys, failed')
      ensures HeadAfter(validation, start, blocks.Keys, failed, old(headId), AtNumber(n) + later) ==
              if stuck then None else if switched then Some(headId)
              else HeadAfter(validation, start, blocks.Keys, failed', headId, later)
    {
      var parallel := FetchBlocksAtNumber(n);
      ghost var received, outcome := blocks.Keys, HeadAfter(validation, start, blocks.Keys, failed, headId, AtNumber(n) + later);
      failed' := failed;
      QueueEnds(parallel, later);
      for j := 0 to |parallel|
        invariant Consistent() && blocks.Keys == received && Marked(start, forkDb, received, failed')
        invariant outcome == HeadAfter(validation, start, received, failed', headId, QueueFrom(parallel, j, later))
      {
        QueueNext(parallel, j, later);
        switched, stuck, failed' := TryForkNext(pushed, parallel[j], start, failed', QueueFrom(parallel, j, later));
        if switched || stuck {
          return;
        }
      }
      switched, stuck := false, false;
    }

    ghost function AtNumber(n: nat): seq<BlockId>
      reads this
    {
      if n in forkNumberDb then forkNumberDb[n] else []
    }

    /** Tries one fork of a series. */
    method TryForkNext(pushed: BlockId, id: BlockId, ghost start: ForkDb, ghost failed: set<BlockId>, ghost queue: seq<BlockId>)
      returns (switched: bool, stuck: bool, ghost failed': set<BlockId>)
      requires Consistent() && id in blocks && Marked(start, forkDb, blocks.Keys, failed) && id in start && queue != [] && queue[0] == id
      modifies this`forkDb, this`headId, this`headNum, this`revalidatable
      ensures Consistent() && (switched ==> !stuck && headId == id)
      ensures !switched && !stuck ==> Marked(start, forkDb, blocks.Keys, failed')
      ensures HeadAfter(validation, start, blocks.Keys, failed, old(headId), queue) ==
              if stuck then None else if switched then Some(headId)
              else HeadAfter(validation, start, blocks.Keys, failed', headId, queue[1..])
    {
      HeadAfterNext(validation, start, blocks.Keys, failed, headId, queue);
      ghost var mid := forkDb;
      assert forkDb[id].CanLink() <==> Tried(start, blocks.Keys, failed, id);
      switched, stuck := TryFork(pushed, id);
      failed' := failed;
      if !switched && !stuck && mid[id].CanLink() {
        failed' := failed + {FirstBad(validation, id)};
        MarkedTwice(start, mid, forkDb, blocks.Keys, failed, {FirstBad(validation, id)});
      }
    }

    /** Tries forks from the given number downwards. The old head is itself a fork to try, so the
        search never ends below it. */
    method TryForks(pushed: BlockId, highest: nat) returns (stuck: bool)
      requires Consistent() && highest > headNum
      modifies this`forkDb, this`headId, this`headNum, this`revalidatable
      ensures Consistent()
      ensures HeadAfter(validation, old(forkDb), blocks.Keys, {}, old(headId), Queue(forkNumberDb, highest)) == if stuck then None else Some(headId)
      ensures stuck ==> !NoGoodZero(validation, blocks.Keys)
      ensures !stuck ==> headNum >= old(headNum)
      ensures !stuck && GoodUpTo(validation, blocks.Keys, highest) ==> HeadIsBest(validation, State())
    {
      ghost var start, failed := State(), {};
      SeriesIsSafe(validation, start, highest);
      var n := highest;
      while n > 0
        invariant Consistent() && Marked(start.db, forkDb, blocks.Keys, failed)
        invariant HeadAfter(validation, start.db, blocks.Keys, {}, start.head, Queue(forkNumberDb, highest)) ==
                  HeadAfter(validation, start.db, blocks.Keys, failed, headId, Queue(forkNumberDb, n))
      {
        var switched;
        switched, stuck, failed := TryForksAt(pushed, n, start.db, failed, Queue(forkNumberDb, n - 1));
        if switched || stuck {
          return;
        }
        n := n - 1;
      }
      stuck := false;
    }

    /** Tries the forks; a head that moves is the first of its number to have arrived. */
    method Reorganise(pushed: BlockId, highest: nat) returns (stuck: bool)
      requires Valid() && highest > headNum
      modifies this`forkDb, this`headId, this`headNum, this`revalidatable
      ensures Valid()
      ensures HeadAfter(validation, old(forkDb), blocks.Keys, {}, old(headId), Queue(forkNumberDb, highest)) == if stuck then None else Some(headId)
      ensures if stuck then !NoGoodZero(validation, blocks.Keys) else headNum >= old(headNum)
      ensures !stuck && GoodUpTo(validation, blocks.Keys, highest) ==> HeadIsBest(validation, State())
      ensures !stuck && headNum > 0 ==> FirstOfItsNumber(validation, arrivals, headId)
    {
      ghost var start := State();
      stuck := TryForks(pushed, highest);
      if !stuck && headNum > 0 {
        FirstArrivalWins(validation, start, arrivals, highest, headId);
      }
    }

    /** Receives a block and says how far the report of it covers the good chains. */
    method Receive(block: FullBlock) returns (tip: BlockId, data: ForkData)
      requires Valid() && block.Id() !in blocks
      modifies this`forkDb, this`blocks, this`forkNumberDb, this`arrivals
      ensures Valid() && blocks == old(blocks)[block.Id() := block] && arrivals == old(arrivals) + [block.Id()]
      ensures State() == Store(old(State()), block) && Reported(old(State()), block, forkDb, tip, data)
      ensures data.CanLink() ==> tip in blocks && blocks[tip].num == Num(tip)
      ensures HeadIsBest(validation, old(State())) ==>
                var switches := data.CanLink() && Num(tip) > headNum;
                if Overshadowed(validation, old(State()), block) then !switches && !HeadIsBest(validation, State())
                else GoodUpTo(validation, blocks.Keys, if switches then Num(tip) else headNum)
    {
      ghost var start := State();
      StoreKeepsInv(validation, start, block);
      ArrivedNext(arrivals, blocks.Keys, forkNumberDb, block);
      tip, data := StoreAndIndex(block);
      if HeadIsBest(validation, start) {
        ReportIsEnough(validation, start, block, tip, data);
      }
    }

    /** Adds a block to the database and reorganises the chain when the block completes a longer one. The head moves only
        to the block of its number that arrived first among the acceptable ones. Whatever
        forks fail on the way, the head never moves to a lower number; and if the chain in use was a longest good
        one before, it still is, except when the new block is overshadowed. The call returns whenever no
        acceptable block is numbered zero, in particular when no block is; in general `PushOutcome` says exactly where
        the head ends and whether the call returns. */
    method PushBlock(block: FullBlock) returns (r: Result<ForkData, PushError>)
      requires Valid()
      modifies this`forkDb, this`blocks, this`forkNumberDb, this`headId, this`headNum, this`revalidatable, this`arrivals
      ensures Valid()
      ensures r == Err(BlockOlderThanUndoHistory) <==> old(headNum) > MAX_UNDO_HISTORY && block.num <= old(headNum) - MAX_UNDO_HISTORY
      ensures r == Err(BlockOlderThanUndoHistory) || block.Id() in old(blocks) ==> State() == old(State())
      ensures r == Err(PopsForever) ==> !NoGoodZero(validation, blocks.Keys)
      ensures r == Err(PopsForever) <==>
                r != Err(BlockOlderThanUndoHistory) && block.Id() !in old(blocks) && PushOutcome(validation, old(State()), block).None?
      ensures r.Ok? <==> r != Err(BlockOlderThanUndoHistory) && r != Err(PopsForever)
      ensures r.Ok? && block.Id() !in old(blocks) ==> PushOutcome(validation, old(State()), block) == Some(headId)
      ensures r.Ok? ==> blocks == old(blocks)[block.Id() := block]
      ensures r.Ok? ==> block.Id() in forkDb && r.value == forkDb[block.Id()]
      ensures r != Err(PopsForever) ==> headNum >= old(headNum)
      ensures r.Ok? && block.Id() !in old(blocks) && HeadIsBest(validation, old(State())) ==>
                (HeadIsBest(validation, State()) <==> !Overshadowed(validation, old(State()), block))
      ensures arrivals == if block.Id() in blocks && block.Id() !in old(blocks) then old(arrivals) + [block.Id()] else old(arrivals)
      ensures r.Ok? && headId != old(headId) && headNum > 0 ==> FirstOfItsNumber(validation, arrivals, headId)
    {
      var id := block.Id();
      if headNum > MAX_UNDO_HISTORY && block.num <= headNum - MAX_UNDO_HISTORY {
        return Err(BlockOlderThanUndoHistory);
      }
      if id in forkDb && forkDb[id].known {
        assert blocks == blocks[id := block];
        return Ok(forkDb[id]);
      }
      var stuck := AddBlock(block);
      if stuck {
        return Err(PopsForever);
      }
      assert id in blocks;
      r := Ok(forkDb[id]);
    }

    /** Adds a block that is new, and tries the forks it completes. */
    method AddBlock(block: FullBlock) returns (stuck: bool)
      requires Valid() && block.Id() !in blocks
      modifies this`forkDb, this`blocks, this`forkNumberDb, this`headId, this`headNum, this`revalidatable, this`arrivals
      ensures Valid() && blocks == old(blocks)[block.Id() := block]
      ensures PushOutcome(validation, old(State()), block) == if stuck then None else Some(headId)
      ensures if stuck then !NoGoodZero(validation, blocks.Keys) else headNum >= old(headNum)
      ensures !stuck && HeadIsBest(validation, old(State())) ==>
                (HeadIsBest(validation, State()) <==> !Overshadowed(validation, old(State()), block))
      ensures arrivals == old(arrivals) + [block.Id()]
      ensures !stuck && headId != old(headId) && headNum > 0 ==> FirstOfItsNumber(validation, arrivals, headId)
    {
      ghost var start := State();
      var tip, data := Receive(block);
      stuck := false;
      if data.CanLink() && blocks[tip].num > headNum {
        stuck := Reorganise(block.Id(), blocks[tip].num);
      }
      OutcomeIs(validation, start, block, tip, data);
    }
  }

  const ZERO := FullBlock(0, Root, 0)
  const ONE := FullBlock(1, ZERO.Id(), 0)
  const OTHER := FullBlock(1, Root, 1)
  const TWO := FullBlock(2, OTHER.Id(), 0)

  lemma OneIsNext(v: Validation, s: Forks)
    requires Inv(v, s) && s.blocks.Keys == {ZERO.Id()} && s.head == Root && v(ZERO.Id()).Accept? && v(ONE.Id()).Accept?
    ensures PushOutcome(v, s, ONE) == Some(ONE.Id())
  {
    NotMentioned(v, s, ONE.Id());
    var all := s.blocks.Keys + {ONE.Id()};
    assert Under(Root, ZERO.Id(), all) && Under(Root, ONE.Id(), all);
    assert ChainOk(v, ZERO.Id());
    HighestWins(v, s, ONE);
  }

  lemma TwoIsBlocked(v: Validation, s: Forks)
    requires Inv(v, s) && s.blocks.Keys == {ZERO.Id(), ONE.Id(), OTHER.Id()} && s.head == ONE.Id()
    requires v(OTHER.Id()).Accept? && v(TWO.Id()).Accept?
    ensures PushOutcome(v, s, TWO) == None
  {
    NotMentioned(v, s, TWO.Id());
    var all := s.blocks.Keys + {TWO.Id()};
    assert Under(Root, OTHER.Id(), all) && Under(Root, TWO.Id(), all);
    assert ChainOk(v, OTHER.Id());
    assert !Poppable(Root, ZERO.Id()) && ForkPoint(TWO.Id(), ONE.Id()) == Root;
    HighestWins(v, s, TWO);
  }

  /** With a block numbered zero in the chain a push that should switch forks does not return: a second chain
      of two blocks arrives after a chain that starts at number zero. */
  method NumberZeroBlocksPopping() returns (chain: ChainDatabase, r: Result<ForkData, PushError>)
    ensures r == Err(PopsForever)
  {
    chain := ChainWithOther();
    TwoIsBlocked(chain.validation, chain.State());
    r := chain.PushBlock(TWO);
  }

  method ChainWithOther() returns (chain: ChainDatabase)
    ensures fresh(chain) && chain.Valid() && chain.blocks.Keys == {ZERO.Id(), ONE.Id(), OTHER.Id()} && chain.headId == ONE.Id()
    ensures chain.validation(OTHER.Id()).Accept? && chain.validation(TWO.Id()).Accept?
  {
    chain := ChainFromZero();
    OtherIsPassed(chain.validation, chain.State());
    PushNew(chain, OTHER, ONE.Id());
    assert chain.blocks.Keys == {ZERO.Id(), ONE.Id(), OTHER.Id()};
  }

  /** A push of a new block that returns. */
  method PushNew(chain: ChainDatabase, block: FullBlock, ghost head: BlockId)
    requires chain.Valid() && block.Id() !in chain.blocks && chain.headNum <= MAX_UNDO_HISTORY
    requires PushOutcome(chain.validation, chain.State(), block) == Some(head)
    modifies chain
    ensures chain.Valid() && chain.headId == head && chain.blocks.Keys == old(chain.blocks.Keys) + {block.Id()}
  {
    var r := chain.PushBlock(block);
  }

  lemma OtherIsPassed(v: Validation, s: Forks)
    requires Inv(v, s) && s.blocks.Keys == {ZERO.Id(), ONE.Id()} && s.head == ONE.Id()
    ensures PushOutcome(v, s, OTHER) == Some(s.head)
  {
    NotMentioned(v, s, OTHER.Id());
    LowBlockIsPassed(v, s, OTHER);
  }

  lemma ZeroIsPassed(v: Validation, s: Forks)
    requires Inv(v, s) && s.blocks == map[] && s.head == Root
    ensures PushOutcome(v, s, ZERO) == Some(Root)
  {
    NotMentioned(v, s, ZERO.Id());
    LowBlockIsPassed(v, s, ZERO);
  }

  method ChainFromZero() returns (chain: ChainDatabase)
    ensures fresh(chain) && chain.Valid() && chain.blocks.Keys == {ZERO.Id(), ONE.Id()} && chain.headId == ONE.Id()
    ensures chain.validation(OTHER.Id()).Accept? && chain.validation(TWO.Id()).Accept?
  {
    chain := new ChainDatabase((b: BlockId) => Accept);
    ZeroIsPassed(chain.validation, chain.State());
    PushNew(chain, ZERO, Root);
    assert chain.blocks.Keys == {ZERO.Id()};
    OneIsNext(chain.validation, chain.State());
    PushNew(chain, ONE, ONE.Id());
    assert chain.blocks.Keys == {ZERO.Id(), ONE.Id()};
  }
}
