/** The chain state as layers: a layer keeps the records stored and removed on top of a previous one. */
module Layers {
  import opened Prelude
  import opened Records

  /** Advertisements and reward pools are applied to the chain but not part of the undo state. */
  predicate Undoable(k: Key) {
    !k.AdKey? && !k.RewardKey?
  }

  datatype Layer = Layer(stored: Records, removed: set<Key>)

  /** What a layer makes of the records below it. */
  function Applied(layer: Layer, r: Records): Records {
    (r - layer.removed) + layer.stored
  }

  function Find(r: Records, k: Key): Option<Record> {
    if k in r then Some(r[k]) else None
  }

  lemma FindApplied(layer: Layer, r: Records, k: Key)
    ensures Find(Applied(layer, r), k) ==
            if k in layer.stored then Some(layer.stored[k]) else if k in layer.removed then None else Find(r, k)
  {
  }

  /** Two states answer every lookup of an undoable record alike. */
  ghost predicate Agree(a: Records, b: Records) {
    forall k {:trigger Find(a, k)} {:trigger Find(b, k)} | Undoable(k) :: Find(a, k) == Find(b, k)
  }

  class State {
    const prev: State?
    ghost const depth: nat
    ghost const below: set<State>

    var stored: Records
    var removed: set<Key>

    ghost predicate Valid()
      reads this, below
      decreases depth
    {
      && stored.Keys !! removed
      && this !in below
      && (prev != null ==> below == prev.below + {prev} && prev.depth < depth && prev.Valid())
    }

    /** The bottom of the layers: the database of the chain. */
    constructor Bottom(records: Records)
      ensures Valid() && fresh(this) && prev == null && stored == records
    {
      prev, depth, below := null, 0, {};
      stored, removed := records, {};
    }

    /** A layer with given changes on top of a state. */
    constructor (prev: State, changes: Layer)
      requires prev.Valid() && changes.stored.Keys !! changes.removed
      ensures Valid() && fresh(this) && this.prev == prev && Changes() == changes && below == prev.below + {prev}
    {
      this.prev, depth, below := prev, prev.depth + 1, prev.below + {prev};
      stored, removed := changes.stored, changes.removed;
    }

    function Changes(): Layer
      reads this
    {
      Layer(stored, removed)
    }

    function Lookup(k: Key): Option<Record>
      requires Valid()
      reads this, below
      decreases depth
    {
      if k in stored then Some(stored[k])
      else if k in removed || prev == null then None
      else prev.Lookup(k)
    }

    method Store(k: Key, rec: Record)
      requires Valid()
      modifies this
      ensures Valid() && stored == old(stored)[k := rec] && removed == old(removed) - {k}
      ensures forall j: Key {:trigger Lookup(j)} :: Lookup(j) == if j == k then Some(rec) else old(Lookup(j))
    {
      removed := removed - {k};
      stored := stored[k := rec];
    }

    /** Removes a record, if there is one. */
    method Remove(k: Key)
      requires Valid()
      modifies this
      ensures Valid() && stored == old(stored) - {k} && removed == old(removed) + if old(Lookup(k)).Some? then {k} else {}
      ensures forall j: Key {:trigger Lookup(j)} :: Lookup(j) == if j == k then None else old(Lookup(j))
    {
      if Lookup(k).Some? {
        stored := stored - {k};
        removed := removed + {k};
      }
    }

    method RemoveAll(keys: set<Key>)
      requires Valid()
      modifies this
      ensures Valid()
      ensures forall j: Key {:trigger Lookup(j)} :: Lookup(j) == if j in keys then None else old(Lookup(j))
    {
      var todo := keys;
      while todo != {}
        invariant Valid() && todo <= keys
        invariant forall j: Key {:trigger Lookup(j)} :: Lookup(j) == if j in keys && j !in todo then None else old(Lookup(j))
      {
        var k :| k in todo;
        Remove(k);
        todo := todo - {k};
      }
    }

    method StoreAll(records: Records)
      requires Valid()
      modifies this
      ensures Valid()
      ensures forall j: Key {:trigger Lookup(j)} :: Lookup(j) == if j in records then Some(records[j]) else old(Lookup(j))
    {
      var todo := records.Keys;
      while todo != {}
        invariant Valid() && todo <= records.Keys
        invariant forall j: Key {:trigger Lookup(j)} ::
                    Lookup(j) == if j in records && j !in todo then Some(records[j]) else old(Lookup(j))
      {
        var k :| k in todo;
        Store(k, records[k]);
        todo := todo - {k};
      }
    }

    /** Writes the changes into the layer below, which then answers every lookup as this layer does. */
    method ApplyChanges()
      requires Valid() && prev != null
      modifies prev
      ensures Valid() && Changes() == old(Changes())
      ensures forall k: Key {:trigger Lookup(k)} :: Lookup(k) == old(Lookup(k))
      ensures forall k: Key {:trigger prev.Lookup(k)} :: prev.Lookup(k) == old(Lookup(k))
    {
      prev.RemoveAll(removed);
      prev.StoreAll(stored);
    }

    /** Fills the undo layer of this one: on top of this layer it reads as the layer below, for every record
        that can be undone. */
    method BuildUndoState(undo: State)
      requires Valid() && prev != null && undo.Valid() && undo.prev == this && undo.Changes() == Layer(map[], {})
      modifies undo
      ensures undo.Valid() && undo.stored.Keys + undo.removed <= set k | k in stored.Keys + removed && Undoable(k)
      ensures forall k: Key {:trigger undo.Lookup(k)} :: undo.Lookup(k) == if Undoable(k) then prev.Lookup(k) else Lookup(k)
    {
      UndoRemoved(undo);
      UndoStored(undo);
    }

    method UndoRemoved(undo: State)
      requires Valid() && prev != null && undo.Valid() && undo.prev == this && undo.Changes() == Layer(map[], {})
      modifies undo
      ensures undo.Valid() && undo.stored.Keys + undo.removed <= set k | k in removed && Undoable(k)
      ensures forall k: Key {:trigger undo.Lookup(k)} :: undo.Lookup(k) == if k in removed && Undoable(k) then prev.Lookup(k) else Lookup(k)
    {
      var todo := set k | k in removed && Undoable(k);
      while todo != {}
        invariant undo.Valid() && todo <= removed && undo.stored.Keys + undo.removed <= set k | k in removed && Undoable(k)
        invariant forall k: Key {:trigger undo.Lookup(k)} ::
                    undo.Lookup(k) == if k in removed && Undoable(k) && k !in todo then prev.Lookup(k) else Lookup(k)
      {
        var k :| k in todo;
        if prev.Lookup(k).Some? {
          undo.Store(k, prev.Lookup(k).value);
        }
        todo := todo - {k};
      }
    }

    method UndoStored(undo: State)
      requires Valid() && prev != null && undo.Valid() && undo.prev == this
      requires undo.stored.Keys + undo.removed <= set k | k in removed && Undoable(k)
      requires forall k: Key {:trigger undo.Lookup(k)} :: undo.Lookup(k) == if k in removed && Undoable(k) then prev.Lookup(k) else Lookup(k)
      modifies undo
      ensures undo.Valid() && undo.stored.Keys + undo.removed <= set k | k in stored.Keys + removed && Undoable(k)
      ensures forall k: Key {:trigger undo.Lookup(k)} :: undo.Lookup(k) == if Undoable(k) then prev.Lookup(k) else Lookup(k)
    {
      var todo := set k | k in stored && Undoable(k);
      while todo != {}
        invariant undo.Valid() && todo <= stored.Keys
        invariant undo.stored.Keys + undo.removed <= set k | k in stored.Keys + removed && Undoable(k)
        invariant forall k: Key {:trigger undo.Lookup(k)} ::
                    undo.Lookup(k) == if Undoable(k) && k !in todo then prev.Lookup(k) else Lookup(k)
      {
        var k :| k in todo;
        if prev.Lookup(k).Some? {
          undo.Store(k, prev.Lookup(k).value);
        } else {
          undo.Remove(k);
        }
        todo := todo - {k};
      }
    }
  }

  datatype Change = Put(key: Key, record: Record) | Delete(key: Key)

  /** The records after a sequence of changes. */
  function Changed(r: Records, changes: seq<Change>): Records {
    if changes == [] then r
    else
      var r' := Changed(r, changes[..|changes| - 1]);
      match changes[|changes| - 1]
      case Put(k, rec) => r'[k := rec]
      case Delete(k) => r' - {k}
  }

  lemma SameFind(a: Records, b: Records)
    requires forall k :: Find(a, k) == Find(b, k)
    ensures a == b
  {
    assert forall k :: k in a ==> Find(b, k) == Some(a[k]);
    assert forall k :: k in b ==> Find(a, k) == Some(b[k]);
  }

  /** Applying a layer cannot tell states apart that agree. */
  lemma AppliedAgree(layer: Layer, a: Records, b: Records)
    requires Agree(a, b)
    ensures Agree(Applied(layer, a), Applied(layer, b))
  {
    forall k | Undoable(k) ensures Find(Applied(layer, a), k) == Find(Applied(layer, b), k) {
      FindApplied(layer, a, k);
      FindApplied(layer, b, k);
    }
  }

  /** The database with the undo states of the blocks that were applied to it. */
  class UndoChain {
    const db: State
    var undo: seq<Layer>
    /** The database as it was before each of those blocks. */
    ghost var history: seq<Records>

    ghost function After(i: int): Records
      requires 0 <= i < |history|
      reads this, db
    {
      if i + 1 < |history| then history[i + 1] else db.stored
    }

    ghost predicate UndoOk(i: int)
      requires 0 <= i < |history| == |undo|
      reads this, db
    {
      && undo[i].stored.Keys !! undo[i].removed
      && (forall k | k in undo[i].stored.Keys + undo[i].removed :: Undoable(k))
      && Agree(Applied(undo[i], After(i)), history[i])
    }

    ghost predicate Valid()
      reads this, db, db.below
    {
      && db.Valid() && db.prev == null && |history| == |undo|
      && forall i {:trigger UndoOk(i)} | 0 <= i < |undo| :: UndoOk(i)
    }

    constructor (records: Records)
      ensures Valid() && fresh(db) && db.stored == records && undo == []
    {
      db := new State.Bottom(records);
      undo, history := [], [];
    }

    /** A new layer with the given changes. */
    method Evaluate(changes: seq<Change>) returns (pending: State)
      requires Valid()
      ensures pending.Valid() && fresh(pending) && pending.prev == db
      ensures forall k: Key {:trigger pending.Lookup(k)} :: pending.Lookup(k) == Find(Changed(db.stored, changes), k)
    {
      pending := new State(db, Layer(map[], {}));
      for i := 0 to |changes|
        invariant pending.Valid() && fresh(pending) && pending.prev == db
        invariant forall k: Key {:trigger pending.Lookup(k)} :: pending.Lookup(k) == Find(Changed(db.stored, changes[..i]), k)
      {
        assert changes[..i + 1][..i] == changes[..i];
        match changes[i]
        case Put(k, rec) => pending.Store(k, rec);
        case Delete(k) => pending.Remove(k);
      }
      assert changes[..|changes|] == changes;
    }

    /** Applies a layer to the database and returns its undo state. */
    method Commit(pending: State) returns (layer: Layer)
      requires db.Valid() && db.prev == null && pending.Valid() && pending.prev == db
      modifies db
      ensures db.Valid() && layer.stored.Keys !! layer.removed && (forall k | k in layer.stored.Keys + layer.removed :: Undoable(k))
      ensures Agree(Applied(layer, db.stored), old(db.stored))
      ensures forall k: Key :: Find(db.stored, k) == old(pending.Lookup(k))
    {
      var undoState := new State(pending, Layer(map[], {}));
      pending.BuildUndoState(undoState);
      layer := undoState.Changes();
      ghost var before := db.stored;
      forall k: Key ensures undoState.Lookup(k) == if Undoable(k) then Find(before, k) else pending.Lookup(k) {
        assert db.Lookup(k) == Find(before, k);
      }
      label Before:
      pending.ApplyChanges();
      forall k: Key ensures Find(db.stored, k) == old(pending.Lookup(k)) {
        assert db.Lookup(k) == old(pending.Lookup(k));
      }
      forall k: Key | Undoable(k) ensures Find(Applied(layer, db.stored), k) == Find(before, k) {
        FindApplied(layer, db.stored, k);
        assert old@Before(undoState.Lookup(k)) == Find(before, k);
      }
    }

    /** Applies a block; its undo state is saved. */
    method Extend(changes: seq<Change>)
      requires Valid()
      modifies this, db
      ensures db.stored == Changed(old(db.stored), changes)
      ensures Valid() && |undo| == |old(undo)| + 1 && history == old(history) + [old(db.stored)]
    {
      var pending := Evaluate(changes);
      var layer := Commit(pending);
      SameFind(db.stored, Changed(old(db.stored), changes));
      undo, history := undo + [layer], history + [old(db.stored)];
      forall i | 0 <= i < |undo| ensures UndoOk(i) {
        assert i < |undo| - 1 ==> old(UndoOk(i));
      }
    }

    /** Takes back the last block. */
    method Pop()
      requires Valid() && undo != []
      modifies this, db
      ensures Valid() && |undo| == |old(undo)| - 1 && history == old(history)[..|undo|]
      ensures Agree(db.stored, old(history)[|undo|])
      ensures forall k | !Undoable(k) :: Find(db.stored, k) == Find(old(db.stored), k)
    {
      var last := |undo| - 1;
      assert UndoOk(last);
      ghost var goal := history[last];
      Rewind(undo[last]);
      undo, history := undo[..last], history[..last];
      forall i | 0 <= i < |undo| ensures UndoOk(i) {
        assert old(UndoOk(i));
        if i == last - 1 {
          AppliedAgree(undo[i], db.stored, goal);
        }
      }
    }

    method Rewind(layer: Layer)
      requires db.Valid() && db.prev == null && layer.stored.Keys !! layer.removed
      modifies db
      ensures db.Valid() && db.stored == Applied(layer, old(db.stored))
    {
      var top := new State(db, layer);
      label Before:
      top.ApplyChanges();
      forall k: Key ensures Find(db.stored, k) == Find(Applied(layer, old(db.stored)), k) {
        FindApplied(layer, old(db.stored), k);
        assert db.Lookup(k) == old@Before(top.Lookup(k));
        assert old@Before(db.Lookup(k)) == Find(old(db.stored), k);
      }
      SameFind(db.stored, Applied(layer, old(db.stored)));
    }

    /** Taking back n blocks restores every undoable record to what it was before the first of them. */
    method PopMany(n: nat)
      requires Valid() && n <= |undo|
      modifies this, db
      ensures Valid() && |undo| == |old(undo)| - n && history == old(history)[..|undo|]
      ensures n > 0 ==> Agree(db.stored, old(history)[|undo|])
    {
      for i := 0 to n
        invariant Valid() && |undo| == |old(undo)| - i && history == old(history)[..|undo|]
        invariant i > 0 ==> Agree(db.stored, old(history)[|undo|])
      {
        Pop();
      }
    }

    /** Taking back a block restores the whole database exactly when the block left the advertisements and
        the reward pool alone. */
    method ExtendAndPop(changes: seq<Change>)
      requires Valid()
      modifies this, db
      ensures Valid() && |undo| == |old(undo)| && history == old(history)
      ensures db.stored == old(db.stored) <==>
                forall k | !Undoable(k) :: Find(Changed(old(db.stored), changes), k) == Find(old(db.stored), k)
    {
      ghost var before := db.stored;
      Extend(changes);
      ghost var between := db.stored;
      Pop();
      assert forall k | !Undoable(k) :: Find(db.stored, k) == Find(between, k);
      if forall k | !Undoable(k) :: Find(between, k) == Find(before, k) {
        assert forall k | Undoable(k) :: Find(db.stored, k) == Find(before, k);
        SameFind(db.stored, before);
      }
    }
  }
}
