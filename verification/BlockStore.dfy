/** The block store of the indexer (crates/block-indexer/src/store.rs, cache.rs): a database with a
    bounded cache in front of it. The cache may evict anything but the entry it just took. */
module BlockStore {
  import opened Common
  import opened Chain

  /** The database. A height maps to a hash, and the block itself is stored under its hash. */
  datatype Db = Db(
    blocks: map<Hash, Block>,
    heights: map<nat, Hash>,
    best: Option<Block>,
    checkpoint: Option<Block>)

  function BlockByHash(db: Db, h: Hash): Option<Block> {
    if h in db.blocks then Some(db.blocks[h]) else None
  }

  function CanonicalAt(db: Db, n: nat): Option<Block> {
    if n in db.heights then BlockByHash(db, db.heights[n]) else None
  }

  function SaveBlock(db: Db, b: Block): Db {
    db.(blocks := db.blocks[b.hash := b])
  }

  function SetCanonical(db: Db, b: Block): Db {
    db.(heights := db.heights[b.number := b.hash])
  }

  predicate Saved(db: Db, b: Block) {
    BlockByHash(db, b.hash) == Some(b)
  }

  datatype StoreKey = HashKey(hash: Hash) | HeightKey(height: nat) | BestKey

  type CacheMap = map<StoreKey, Block>

  /** What the database alone answers for a key. */
  function Lookup(db: Db, key: StoreKey): Option<Block> {
    match key
    case HashKey(h) => BlockByHash(db, h)
    case HeightKey(n) => CanonicalAt(db, n)
    case BestKey => db.best
  }

  predicate CoherentAt(db: Db, cache: CacheMap, k: StoreKey) {
    k in cache ==> Lookup(db, k) == Some(cache[k])
  }

  /** Every cached entry is what the database would answer. */
  ghost predicate Coherent(db: Db, cache: CacheMap) {
    forall k {:trigger CoherentAt(db, cache, k)} :: CoherentAt(db, cache, k)
  }

  datatype Op =
    | Get(key: StoreKey)
    | GetCheckpoint
    | Save(block: Block)
    | MakeCanonical(block: Block)
    | MakeBest(block: Block)
    | PutCheckpoint(block: Block)
    | DropCheckpoint

  datatype Store = Store(db: Db, cache: CacheMap)

  /** The store without a cache. */
  function Answer(db: Db, op: Op): Option<Block> {
    match op
    case Get(key) => Lookup(db, key)
    case GetCheckpoint => db.checkpoint
    case _ => None
  }

  function Write(db: Db, op: Op): Db {
    match op
    case Get(_) => db
    case GetCheckpoint => db
    case Save(b) => SaveBlock(db, b)
    case MakeCanonical(b) => SetCanonical(db, b)
    case MakeBest(b) => db.(best := Some(b))
    case PutCheckpoint(b) => db.(checkpoint := Some(b))
    case DropCheckpoint => db.(checkpoint := None)
  }

  /** The answer of the cached store: the cache first, and for a height the block behind the stored
      hash, itself looked up through the cache. */
  function CachedAnswer(s: Store, op: Op): Option<Block> {
    match op
    case Get(key) =>
      if key in s.cache then Some(s.cache[key])
      else if key.HeightKey? then
        if key.height !in s.db.heights then None
        else
          var h := s.db.heights[key.height];
          if HashKey(h) in s.cache then Some(s.cache[HashKey(h)]) else BlockByHash(s.db, h)
      else Lookup(s.db, key)
    case GetCheckpoint => s.db.checkpoint
    case _ => None
  }

  /** The cache entries an operation may leave behind besides the ones it found. */
  function Touched(s: Store, op: Op): CacheMap {
    match op
    case Get(key) =>
      var a := CachedAnswer(s, op);
      if a.None? || key in s.cache then map[]
      else if key.HeightKey? then map[HashKey(s.db.heights[key.height]) := a.value, key := a.value]
      else map[key := a.value]
    case GetCheckpoint => map[]
    case Save(b) => map[HashKey(b.hash) := b]
    case MakeCanonical(b) => map[HeightKey(b.number) := b]
    case MakeBest(b) => map[BestKey := b]
    case PutCheckpoint(_) => map[]
    case DropCheckpoint => map[]
  }

  /** `small` is what is left of `big` after some evictions. */
  ghost predicate EvictedFrom(small: CacheMap, big: CacheMap) {
    forall k :: k in small ==> k in big && small[k] == big[k]
  }

  /** One operation of the cached store, whatever it evicts. */
  ghost predicate CachedStep(s: Store, op: Op, s': Store, answer: Option<Block>) {
    && s'.db == Write(s.db, op)
    && answer == CachedAnswer(s, op)
    && EvictedFrom(s'.cache, s.cache + Touched(s, op))
  }

  /** The discipline of the indexer: a hash is only ever saved with one block, and a block is saved
      before it is made canonical. */
  predicate Safe(db: Db, op: Op) {
    match op
    case Save(b) => BlockByHash(db, b.hash).Some? ==> Saved(db, b)
    case MakeCanonical(b) => Saved(db, b)
    case _ => true
  }

  lemma CoherentStep(s: Store, op: Op, s': Store, answer: Option<Block>)
    requires Coherent(s.db, s.cache) && Safe(s.db, op)
    requires CachedStep(s, op, s', answer)
    ensures Coherent(s'.db, s'.cache)
    ensures answer == Answer(s.db, op)
  {
    if op.Get? {
      assert CoherentAt(s.db, s.cache, op.key);
      if op.key.HeightKey? && op.key.height in s.db.heights {
        assert CoherentAt(s.db, s.cache, HashKey(s.db.heights[op.key.height]));
      }
    }
    forall k
      ensures CoherentAt(s'.db, s'.cache, k)
    {
      if k in s'.cache {
        assert s'.cache[k] == (s.cache + Touched(s, op))[k];
        assert CoherentAt(s.db, s.cache, k);
      }
    }
  }

  /** Saving before making canonical is not optional: when the new entry is cached, the cache keeps
      agreeing with the database exactly when the block had been saved. */
  lemma CanonicalNeedsSaved(s: Store, b: Block, s': Store)
    requires Coherent(s.db, s.cache)
    requires CachedStep(s, MakeCanonical(b), s', None) && HeightKey(b.number) in s'.cache
    ensures Coherent(s'.db, s'.cache) <==> Saved(s.db, b)
  {
    if Saved(s.db, b) {
      CoherentStep(s, MakeCanonical(b), s', None);
    } else {
      assert s'.cache[HeightKey(b.number)] == b;
      assert !CoherentAt(s'.db, s'.cache, HeightKey(b.number));
    }
  }

  /** The answers of the store without a cache to a run of operations. */
  function Answers(db: Db, ops: seq<Op>): (r: seq<Option<Block>>)
    ensures |r| == |ops|
    decreases |ops|
  {
    if ops == [] then [] else [Answer(db, ops[0])] + Answers(Write(db, ops[0]), ops[1..])
  }

  predicate SafeRun(db: Db, ops: seq<Op>)
    decreases |ops|
  {
    ops == [] || (Safe(db, ops[0]) && SafeRun(Write(db, ops[0]), ops[1..]))
  }

  /** A run of the cached store: the states it goes through and the answers it gives. */
  ghost predicate CachedRun(states: seq<Store>, ops: seq<Op>, answers: seq<Option<Block>>) {
    && |states| == |ops| + 1 && |answers| == |ops|
    && forall i :: 0 <= i < |ops| ==> CachedStep(states[i], ops[i], states[i + 1], answers[i])
  }

  /** Over any run, and whatever is evicted along the way, the cached store answers every read as
      the uncached store would. */
  lemma {:induction false} CachedRunAnswersAsUncached(states: seq<Store>, ops: seq<Op>, answers: seq<Option<Block>>)
    requires CachedRun(states, ops, answers)
    requires Coherent(states[0].db, states[0].cache) && SafeRun(states[0].db, ops)
    ensures answers == Answers(states[0].db, ops)
    ensures Coherent(states[|ops|].db, states[|ops|].cache)
    decreases |ops|
  {
    if ops != [] {
      assert CachedStep(states[0], ops[0], states[1], answers[0]);
      CoherentStep(states[0], ops[0], states[1], answers[0]);
      forall i | 0 <= i < |ops| - 1
        ensures CachedStep(states[1..][i], ops[1..][i], states[1..][i + 1], answers[1..][i])
      {
        assert CachedStep(states[i + 1], ops[i + 1], states[i + 2], answers[i + 1]);
      }
      CachedRunAnswersAsUncached(states[1..], ops[1..], answers[1..]);
      assert answers == [answers[0]] + answers[1..];
    }
  }

  class CachedBlockStore {
    var db: Db
    var cache: CacheMap
    const capacity: nat

    ghost predicate Valid()
      reads this
    {
      0 < capacity && |cache| <= capacity && Coherent(db, cache)
    }

    /** `LruCache::new` panics on a size of zero. */
    constructor (db: Db, capacity: nat)
      requires 0 < capacity
      ensures Valid() && this.db == db && this.capacity == capacity
    {
      this.db, this.cache, this.capacity := db, map[], capacity;
    }

    ghost function Snap(): Store
      reads this
    {
      Store(db, cache)
    }

    /** Inserting into a full cache evicts one other entry. */
    method SaveToCache(key: StoreKey, b: Block)
      requires 0 < capacity && |cache| <= capacity
      modifies this`cache
      ensures |cache| <= capacity
      ensures key in cache && EvictedFrom(cache, old(cache)[key := b])
    {
      ghost var more := cache.Keys + {key};
      cache := cache[key := b];
      assert cache.Keys == more;
      if |cache| > capacity {
        assert |cache.Keys - {key}| == |cache.Keys| - 1;
        var victim :| victim in cache.Keys - {key};
        assert (cache - {victim}).Keys == cache.Keys - {victim};
        cache := cache - {victim};
      }
    }

    method ReadByHash(h: Hash) returns (r: Option<Block>)
      requires Valid()
      modifies this`cache
      ensures Valid() && db == old(db)
      ensures CachedStep(old(Snap()), Get(HashKey(h)), Snap(), r)
      ensures r == BlockByHash(db, h) && (r.Some? ==> HashKey(h) in cache)
    {
      if HashKey(h) in cache {
        r := Some(cache[HashKey(h)]);
      } else {
        r := BlockByHash(db, h);
        if r.Some? {
          SaveToCache(HashKey(h), r.value);
        }
      }
      CoherentStep(old(Snap()), Get(HashKey(h)), Snap(), r);
    }

    method ReadBest() returns (r: Option<Block>)
      requires Valid()
      modifies this`cache
      ensures Valid() && db == old(db)
      ensures CachedStep(old(Snap()), Get(BestKey), Snap(), r)
      ensures r == db.best && (r.Some? ==> BestKey in cache)
    {
      if BestKey in cache {
        r := Some(cache[BestKey]);
      } else {
        r := db.best;
        if r.Some? {
          SaveToCache(BestKey, r.value);
        }
      }
      CoherentStep(old(Snap()), Get(BestKey), Snap(), r);
    }

    method ReadCanonical(n: nat) returns (r: Option<Block>)
      requires Valid()
      modifies this`cache
      ensures Valid() && db == old(db)
      ensures CachedStep(old(Snap()), Get(HeightKey(n)), Snap(), r)
      ensures r == CanonicalAt(db, n) && (r.Some? ==> HeightKey(n) in cache)
    {
      var key := HeightKey(n);
      if key in cache {
        r := Some(cache[key]);
      } else if n !in db.heights {
        r := None;
      } else {
        r := ReadByHash(db.heights[n]);
        if r.Some? {
          SaveToCache(key, r.value);
        }
      }
      CoherentStep(old(Snap()), Get(key), Snap(), r);
    }

    method WriteBlock(b: Block)
      requires Valid()
      modifies this
      ensures 0 < capacity && |cache| <= capacity && db == SaveBlock(old(db), b)
      ensures CachedStep(old(Snap()), Op.Save(b), Snap(), None)
      ensures HashKey(b.hash) in cache && (Safe(old(db), Op.Save(b)) ==> Valid())
    {
      SaveToCache(HashKey(b.hash), b);
      db := SaveBlock(db, b);
      if Safe(old(db), Op.Save(b)) {
        CoherentStep(old(Snap()), Op.Save(b), Snap(), None);
      }
    }

    method WriteCanonical(b: Block)
      requires Valid()
      modifies this
      ensures 0 < capacity && |cache| <= capacity && db == SetCanonical(old(db), b)
      ensures CachedStep(old(Snap()), MakeCanonical(b), Snap(), None)
      ensures HeightKey(b.number) in cache && (Valid() <==> Saved(old(db), b))
    {
      SaveToCache(HeightKey(b.number), b);
      db := SetCanonical(db, b);
      CanonicalNeedsSaved(old(Snap()), b, Snap());
    }

    method WriteBest(b: Block)
      requires Valid()
      modifies this
      ensures Valid() && db == old(db).(best := Some(b))
      ensures CachedStep(old(Snap()), MakeBest(b), Snap(), None)
    {
      SaveToCache(BestKey, b);
      db := db.(best := Some(b));
      CoherentStep(old(Snap()), MakeBest(b), Snap(), None);
    }

    method SetCheckpoint(c: Option<Block>)
      requires Valid()
      modifies this`db
      ensures Valid() && db == old(db).(checkpoint := c)
    {
      db := db.(checkpoint := c);
      forall k
        ensures CoherentAt(db, cache, k)
      {
        assert CoherentAt(old(db), cache, k);
      }
    }

    // The same operations as the indexer uses them: in terms of the database alone.

    method GetBest() returns (r: Option<Block>)
      requires Valid()
      modifies this`cache
      ensures Valid() && db == old(db) && r == db.best
    {
      r := ReadBest();
    }

    method GetCanonical(n: nat) returns (r: Option<Block>)
      requires Valid()
      modifies this`cache
      ensures Valid() && db == old(db) && r == CanonicalAt(db, n)
    {
      r := ReadCanonical(n);
    }

    method Save(b: Block)
      requires Valid() && Safe(db, Op.Save(b))
      modifies this
      ensures Valid() && db == SaveBlock(old(db), b)
    {
      WriteBlock(b);
    }

    method SetCanonicalBlock(b: Block)
      requires Valid() && Saved(db, b)
      modifies this
      ensures Valid() && db == SetCanonical(old(db), b)
    {
      WriteCanonical(b);
    }

    method SetBest(b: Block)
      requires Valid()
      modifies this
      ensures Valid() && db == old(db).(best := Some(b))
    {
      WriteBest(b);
    }
  }

  /** Reads give what was written last, and a write touches nothing else. */
  lemma ReadsLastWrite(db: Db, op: Op, key: StoreKey)
    requires Safe(db, op)
    ensures var db1 := Write(db, op);
            match op
            case Save(b) => BlockByHash(db1, b.hash) == Some(b) &&
                            (key != HashKey(b.hash) && Lookup(db, key).Some? ==> Lookup(db1, key) == Lookup(db, key))
            case MakeCanonical(b) => CanonicalAt(db1, b.number) == Some(b) &&
                                     (key != HeightKey(b.number) ==> Lookup(db1, key) == Lookup(db, key))
            case MakeBest(b) => db1.best == Some(b) && (key != BestKey ==> Lookup(db1, key) == Lookup(db, key))
            case PutCheckpoint(b) => Answer(db1, GetCheckpoint) == Some(b) && Lookup(db1, key) == Lookup(db, key)
            case DropCheckpoint => Answer(db1, GetCheckpoint) == None && Lookup(db1, key) == Lookup(db, key)
            case _ => db1 == db
    ensures !op.PutCheckpoint? && !op.DropCheckpoint? ==>
      Answer(Write(db, op), GetCheckpoint) == Answer(db, GetCheckpoint)
  {
  }
}
