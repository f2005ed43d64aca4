/**
 * lib/map.c: a chained hashtable from string keys to untyped values. Each
 * bucket's chain is a sequence of slots, head first; the abstract value is
 * the ghost map `Contents`.
 */
module HashMaps {
  import opened Wrappers

  /** STARTING_HASHTABLE_SIZE and LOAD_FACTOR (percent). */
  const STARTING_HASHTABLE_SIZE: nat := 15
  const LOAD_FACTOR: nat := 70

  datatype Slot<V> = Slot(key: string, value: V)

  /**
   * The growth test of map_set: the integer percentage `100 * size / capacity`
   * is above LOAD_FACTOR.
   */
  predicate Crowded(size: nat, capacity: nat)
    requires capacity > 0
  {
    100 * size / capacity > LOAD_FACTOR
  }

  /** The growth test compares whole percentages: it holds exactly when size reaches 71% of capacity. */
  lemma CrowdedExactly(size: nat, capacity: nat)
    requires capacity > 0
    ensures Crowded(size, capacity) <==> 100 * size >= (LOAD_FACTOR + 1) * capacity
  {
    var q, r := 100 * size / capacity, 100 * size % capacity;
    assert 100 * size == q * capacity + r && r < capacity;
    if q > LOAD_FACTOR {
      ScaleMono(LOAD_FACTOR + 1, q, capacity);
    } else {
      ScaleMono(q + 1, LOAD_FACTOR + 1, capacity);
      assert (q + 1) * capacity == q * capacity + capacity;
    }
  }

  /** Multiplying by the same capacity keeps the order of two counts. */
  lemma ScaleMono(a: nat, b: nat, c: nat)
    requires a <= b
    ensures a * c <= b * c
  {
    assert b * c == a * c + (b - a) * c;
  }

  /** A fresh map holds ten keys without growing and grows when the eleventh arrives. */
  lemma FirstGrowthAtEleventhKey()
    ensures !Crowded(10, STARTING_HASHTABLE_SIZE) && Crowded(11, STARTING_HASHTABLE_SIZE)
  {
    CrowdedExactly(10, STARTING_HASHTABLE_SIZE);
    CrowdedExactly(11, STARTING_HASHTABLE_SIZE);
  }

  /** Some slot of `chain` has key `key`. */
  ghost predicate HasKey<V>(chain: seq<Slot<V>>, key: string) {
    exists i :: 0 <= i < |chain| && chain[i].key == key
  }

  /** hash(key, capacity): the bucket of `key`, taken from its digest, always below `cap`. */
  function Bucket(digest: string -> nat, key: string, cap: nat): (b: nat)
    requires cap > 0
    ensures b < cap
  {
    digest(key) % cap
  }

  /**
   * The table invariant for bucket chains `bs` holding the associations `m`:
   * every slot is in the bucket its key hashes to and agrees with `m`, keys
   * are unique within a chain, and every key of `m` is in its bucket.
   */
  ghost predicate Table<V>(digest: string -> nat, bs: seq<seq<Slot<V>>>, m: map<string, V>) {
    |bs| > 0 && Placed(digest, bs, m) && Distinct(bs) && Covered(digest, bs, m)
  }

  /** Every slot sits in the bucket its key hashes to and agrees with `m`. */
  ghost predicate Placed<V>(digest: string -> nat, bs: seq<seq<Slot<V>>>, m: map<string, V>) {
    forall b, i :: 0 <= b < |bs| && 0 <= i < |bs[b]| ==>
      Bucket(digest, bs[b][i].key, |bs|) == b
      && bs[b][i].key in m && m[bs[b][i].key] == bs[b][i].value
  }

  /** No key appears twice in one chain. */
  ghost predicate Distinct<V>(bs: seq<seq<Slot<V>>>) {
    forall b, i, j :: 0 <= b < |bs| && 0 <= i < j < |bs[b]| ==> bs[b][i].key != bs[b][j].key
  }

  /** Every key of `m` is in its bucket. */
  ghost predicate Covered<V>(digest: string -> nat, bs: seq<seq<Slot<V>>>, m: map<string, V>)
    requires |bs| > 0
  {
    forall key :: key in m ==> HasKey(bs[Bucket(digest, key, |bs|)], key)
  }

  /** Every bucket of a fresh table is empty: it is a table of the empty map. */
  lemma EmptyTable<V>(digest: string -> nat, bs: seq<seq<Slot<V>>>)
    requires |bs| > 0 && forall b :: 0 <= b < |bs| ==> bs[b] == []
    ensures Table(digest, bs, map[])
  {
  }

  /** Looking `key` up in its own bucket finds its value, or proves it absent. */
  lemma TableLookup<V>(digest: string -> nat, bs: seq<seq<Slot<V>>>, m: map<string, V>, key: string, n: nat)
    requires Table(digest, bs, m)
    requires n <= |bs[Bucket(digest, key, |bs|)]|
    requires forall i :: 0 <= i < n ==> bs[Bucket(digest, key, |bs|)][i].key != key
    ensures n < |bs[Bucket(digest, key, |bs|)]| && bs[Bucket(digest, key, |bs|)][n].key == key ==>
              key in m && m[key] == bs[Bucket(digest, key, |bs|)][n].value
    ensures n == |bs[Bucket(digest, key, |bs|)]| ==> key !in m
  {
  }

  /** Prepending a slot with a new key to its bucket adds that association. */
  lemma TableInsert<V>(digest: string -> nat, bs: seq<seq<Slot<V>>>, m: map<string, V>, s: Slot<V>)
    requires Table(digest, bs, m) && s.key !in m
    ensures var h := Bucket(digest, s.key, |bs|);
            Table(digest, bs[h := [s] + bs[h]], m[s.key := s.value])
  {
    InsertPlaced(digest, bs, m, s);
    InsertDistinct(digest, bs, m, s);
    InsertCovered(digest, bs, m, s);
  }

  lemma InsertPlaced<V>(digest: string -> nat, bs: seq<seq<Slot<V>>>, m: map<string, V>, s: Slot<V>)
    requires |bs| > 0 && Placed(digest, bs, m) && s.key !in m
    ensures var h := Bucket(digest, s.key, |bs|);
            Placed(digest, bs[h := [s] + bs[h]], m[s.key := s.value])
  {
    var h := Bucket(digest, s.key, |bs|);
    var bs': seq<seq<Slot<V>>> := bs[h := [s] + bs[h]];
    var m': map<string, V> := m[s.key := s.value];
    forall b: int, i: int | 0 <= b < |bs'| && 0 <= i < |bs'[b]|
      ensures Bucket(digest, bs'[b][i].key, |bs'|) == b && bs'[b][i].key in m' && m'[bs'[b][i].key] == bs'[b][i].value
    {
      if b == h && i == 0 {
        assert bs'[b][i] == s;
      } else {
        var i0 := if b == h then i - 1 else i;
        assert bs'[b][i] == bs[b][i0];
      }
    }
  }

  lemma InsertDistinct<V>(digest: string -> nat, bs: seq<seq<Slot<V>>>, m: map<string, V>, s: Slot<V>)
    requires |bs| > 0 && Placed(digest, bs, m) && Distinct(bs) && s.key !in m
    ensures var h := Bucket(digest, s.key, |bs|);
            Distinct(bs[h := [s] + bs[h]])
  {
    var h := Bucket(digest, s.key, |bs|);
    var bs': seq<seq<Slot<V>>> := bs[h := [s] + bs[h]];
    forall b: int, i: int, j: int | 0 <= b < |bs'| && 0 <= i < j < |bs'[b]|
      ensures bs'[b][i].key != bs'[b][j].key
    {
      if b == h {
        assert bs'[b][j] == bs[b][j - 1];
        if i > 0 {
          assert bs'[b][i] == bs[b][i - 1];
        }
      } else {
        assert bs'[b] == bs[b];
      }
    }
  }

  lemma InsertCovered<V>(digest: string -> nat, bs: seq<seq<Slot<V>>>, m: map<string, V>, s: Slot<V>)
    requires |bs| > 0 && Covered(digest, bs, m)
    ensures var h := Bucket(digest, s.key, |bs|);
            Covered(digest, bs[h := [s] + bs[h]], m[s.key := s.value])
  {
    var h := Bucket(digest, s.key, |bs|);
    var bs': seq<seq<Slot<V>>> := bs[h := [s] + bs[h]];
    var m': map<string, V> := m[s.key := s.value];
    forall key: string | key in m'
      ensures HasKey(bs'[Bucket(digest, key, |bs'|)], key)
    {
      if key == s.key {
        assert bs'[h][0].key == key;
      } else {
        var b := Bucket(digest, key, |bs|);
        var i :| 0 <= i < |bs[b]| && bs[b][i].key == key;
        assert bs'[b][if b == h then i + 1 else i].key == key;
      }
    }
  }

  /** Overwriting the value of the slot at position `n` of bucket `h` updates that association. */
  lemma TableUpdate<V>(digest: string -> nat, bs: seq<seq<Slot<V>>>, m: map<string, V>, h: nat, n: nat, value: V)
    requires Table(digest, bs, m) && h < |bs| && n < |bs[h]|
    ensures bs[h][n].key in m
    ensures Table(digest, bs[h := bs[h][n := Slot(bs[h][n].key, value)]], m[bs[h][n].key := value])
  {
    var key := bs[h][n].key;
    var bs' := bs[h := bs[h][n := Slot(key, value)]];
    forall k | k in m[key := value]
      ensures HasKey(bs'[Bucket(digest, k, |bs'|)], k)
    {
      var b := Bucket(digest, k, |bs|);
      var i :| 0 <= i < |bs[b]| && bs[b][i].key == k;
      assert bs'[b][i].key == k;
    }
  }

  /**
   * Rehash progress: `moved` holds exactly the associations of `m` whose keys
   * hash, in the old table `bs`, to a bucket below `n`.
   */
  ghost predicate MovedUpTo<V>(digest: string -> nat, bs: seq<seq<Slot<V>>>, m: map<string, V>, moved: map<string, V>, n: nat)
    requires |bs| > 0
  {
    (forall key :: key in moved ==> key in m && moved[key] == m[key] && Bucket(digest, key, |bs|) < n)
    && (forall key :: key in m && Bucket(digest, key, |bs|) < n ==> key in moved)
  }

  /** The chain of bucket `n` has unique keys, none of them moved yet. */
  lemma ChainNotMoved<V>(digest: string -> nat, bs: seq<seq<Slot<V>>>, m: map<string, V>, moved: map<string, V>, n: nat)
    requires Table(digest, bs, m) && n < |bs| && MovedUpTo(digest, bs, m, moved, n)
    ensures forall i, j :: 0 <= i < j < |bs[n]| ==> bs[n][i].key != bs[n][j].key
    ensures forall i :: 0 <= i < |bs[n]| ==> bs[n][i].key !in moved
  {
    forall i | 0 <= i < |bs[n]|
      ensures bs[n][i].key !in moved
    {
      assert Bucket(digest, bs[n][i].key, |bs|) == n;
    }
  }

  /** Moving the chain of bucket `n` advances the rehash to `n + 1`. */
  lemma ChainMoved<V>(digest: string -> nat, bs: seq<seq<Slot<V>>>, m: map<string, V>, before: map<string, V>, after: map<string, V>, n: nat)
    requires Table(digest, bs, m) && n < |bs| && MovedUpTo(digest, bs, m, before, n)
    requires forall key :: key in before ==> key in after && after[key] == before[key]
    requires forall i :: 0 <= i < |bs[n]| ==> bs[n][i].key in after && after[bs[n][i].key] == bs[n][i].value
    requires forall key :: key in after ==> key in before || HasKey(bs[n], key)
    ensures MovedUpTo(digest, bs, m, after, n + 1)
  {
    forall key | key in after
      ensures key in m && after[key] == m[key] && Bucket(digest, key, |bs|) < n + 1
    {
      if key !in before {
        var i :| 0 <= i < |bs[n]| && bs[n][i].key == key;
        assert Bucket(digest, bs[n][i].key, |bs|) == n;
      }
    }
    forall key | key in m && Bucket(digest, key, |bs|) == n
      ensures key in after
    {
      assert HasKey(bs[Bucket(digest, key, |bs|)], key);
      var i :| 0 <= i < |bs[n]| && bs[n][i].key == key;
    }
  }

  /** Once every bucket is done, the moved associations are all of `m`. */
  lemma MovedAll<V>(digest: string -> nat, bs: seq<seq<Slot<V>>>, m: map<string, V>, moved: map<string, V>)
    requires |bs| > 0 && MovedUpTo(digest, bs, m, moved, |bs|)
    ensures moved == m
  {
    assert moved.Keys == m.Keys;
  }

  /**
   * The inner loop of the rehash: relink the slots of one old chain, in
   * chain order, each to the head of its bucket in `copy`. The keys moved so
   * far (`moved`) gain exactly the chain's associations.
   */
  method MoveChain<V>(digest: string -> nat, copy: array<seq<Slot<V>>>, chain: seq<Slot<V>>, ghost moved: map<string, V>)
    returns (ghost moved': map<string, V>)
    requires Table(digest, copy[..], moved)
    requires forall i, j :: 0 <= i < j < |chain| ==> chain[i].key != chain[j].key
    requires forall i :: 0 <= i < |chain| ==> chain[i].key !in moved
    modifies copy
    ensures Table(digest, copy[..], moved')
    ensures forall key :: key in moved ==> key in moved' && moved'[key] == moved[key]
    ensures forall i :: 0 <= i < |chain| ==> chain[i].key in moved' && moved'[chain[i].key] == chain[i].value
    ensures forall key :: key in moved' ==> key in moved || HasKey(chain, key)
  {
    moved' := moved;
    var k := 0;
    while k < |chain|
      invariant k <= |chain|
      invariant Table(digest, copy[..], moved')
      invariant forall key :: key in moved ==> key in moved' && moved'[key] == moved[key]
      invariant forall i :: 0 <= i < k ==> chain[i].key in moved' && moved'[chain[i].key] == chain[i].value
      invariant forall key :: key in moved' ==> key in moved || exists i :: 0 <= i < k && chain[i].key == key
    {
      var slot := chain[k];
      var idx := Bucket(digest, slot.key, copy.Length);
      TableInsert(digest, copy[..], moved', slot);
      copy[idx] := [slot] + copy[idx];
      moved' := moved'[slot.key := slot.value];
      k := k + 1;
    }
  }

  class HashMap<V> {
    /**
     * The digest the hash is taken from (MD5 in the C code, read as a machine
     * word); a fixed function of the key.
     */
    const digest: string -> nat
    var buckets: array<seq<Slot<V>>>
    var size: nat
    var capacity: nat

    ghost var Contents: map<string, V>

    /** The chains form a table of Contents over `capacity` buckets and `size` counts the keys. */
    ghost predicate Valid()
      reads this, buckets
    {
      buckets.Length == capacity && size == |Contents| && Table(digest, buckets[..], Contents)
    }

    /** map_create: size 0, capacity 15, every bucket empty. `digest` is the hash's source of bits. */
    constructor (digest: string -> nat)
      ensures Valid() && fresh(buckets)
      ensures Contents == map[] && size == 0 && capacity == STARTING_HASHTABLE_SIZE
      ensures forall b :: 0 <= b < buckets.Length ==> buckets[b] == []
      ensures this.digest == digest
    {
      this.digest := digest;
      size := 0;
      capacity := STARTING_HASHTABLE_SIZE;
      buckets := new seq<Slot<V>>[STARTING_HASHTABLE_SIZE](_ => []);
      Contents := map[];
      new;
      EmptyTable(digest, buckets[..]);
    }

    /**
     * map_create: NULL when the `malloc` of the map fails (`allocOk` false) or
     * the `calloc` of its buckets fails (`tableOk` false), else an empty map.
     */
    static method Create(digest: string -> nat, allocOk: bool, tableOk: bool) returns (m: HashMap?<V>)
      ensures m != null <==> allocOk && tableOk
      ensures m != null ==> fresh(m) && fresh(m.buckets) && m.Valid() && m.digest == digest
      ensures m != null ==> m.Contents == map[] && m.size == 0 && m.capacity == STARTING_HASHTABLE_SIZE
    {
      if !allocOk {
        return null;
      }
      if !tableOk {
        return null;
      }
      m := new HashMap(digest);
    }

    /** map_size: the number of keys. */
    method Size() returns (n: nat)
      requires Valid()
      ensures n == |Contents|
    {
      n := size;
    }

    /** map_get: the value stored under `key`, or None (NULL) when there is none. */
    method Get(key: string) returns (r: Option<V>)
      requires Valid()
      ensures key in Contents ==> r == Some(Contents[key])
      ensures key !in Contents ==> r == None
    {
      var chain := buckets[Bucket(digest, key, capacity)];
      var n := 0;
      while n < |chain|
        invariant n <= |chain|
        invariant forall i :: 0 <= i < n ==> chain[i].key != key
      {
        if chain[n].key == key {
          TableLookup(digest, buckets[..], Contents, key, n);
          return Some(chain[n].value);
        }
        n := n + 1;
      }
      TableLookup(digest, buckets[..], Contents, key, n);
      return None;
    }

    /**
     * The rehash of map_set: move every slot into a fresh bucket array of
     * twice the capacity, each to the head of the bucket its key hashes to
     * under the new capacity. Contents are kept.
     */
    method Grow()
      requires Valid()
      modifies this
      ensures Valid() && fresh(buckets)
      ensures capacity == 2 * old(capacity) && Contents == old(Contents)
    {
      var cap2 := 2 * capacity;
      var copy := new seq<Slot<V>>[cap2](_ => []);
      ghost var moved: map<string, V> := map[];
      EmptyTable(digest, copy[..]);
      for n := 0 to capacity
        modifies copy
        invariant Table(digest, copy[..], moved)
        invariant MovedUpTo(digest, buckets[..], Contents, moved, n)
      {
        var chain := buckets[n];
        ChainNotMoved(digest, buckets[..], Contents, moved, n);
        ghost var before := moved;
        moved := MoveChain(digest, copy, chain, moved);
        ChainMoved(digest, buckets[..], Contents, before, moved, n);
      }
      MovedAll(digest, buckets[..], Contents, moved);
      assert moved == Contents;
      capacity := cap2;
      buckets := copy;
    }

    /**
     * map_set(key, value). `growOk` is the outcome of allocating the doubled
     * bucket array when the map is crowded, and `nodeOk` that of allocating
     * the slot of a new key. Growth comes first and stays even when the slot
     * allocation then fails.
     */
    method Set(key: string, value: V, growOk: bool, nodeOk: bool) returns (ok: bool)
      requires Valid()
      modifies this, buckets
      ensures Valid()
      ensures ok <==> (!Crowded(old(size), old(capacity)) || growOk) && (key in old(Contents) || nodeOk)
      ensures Contents == if ok then old(Contents)[key := value] else old(Contents)
      ensures capacity == if Crowded(old(size), old(capacity)) && growOk then 2 * old(capacity) else old(capacity)
      ensures ok && key !in old(Contents) ==> buckets[Bucket(digest, key, capacity)][0] == Slot(key, value)
    {
      if Crowded(size, capacity) {
        if !growOk {
          return false;
        }
        Grow();
      }
      ok := Place(key, value, nodeOk);
    }

    /**
     * The lookup-then-insert part of map_set: an existing key has its value
     * replaced in place (size unchanged); a new key goes to the head of its
     * bucket when its slot can be allocated.
     */
    method Place(key: string, value: V, nodeOk: bool) returns (ok: bool)
      requires Valid()
      modifies this, buckets
      ensures Valid() && buckets == old(buckets) && capacity == old(capacity)
      ensures ok <==> key in old(Contents) || nodeOk
      ensures Contents == if ok then old(Contents)[key := value] else old(Contents)
      ensures ok && key !in old(Contents) ==> buckets[Bucket(digest, key, capacity)][0] == Slot(key, value)
    {
      var idx := Bucket(digest, key, capacity);
      var chain := buckets[idx];
      var n := 0;
      while n < |chain|
        invariant n <= |chain|
        invariant forall i :: 0 <= i < n ==> chain[i].key != key
      {
        if chain[n].key == key {
          TableUpdate(digest, buckets[..], Contents, idx, n, value);
          buckets[idx] := chain[n := Slot(key, value)];
          Contents := Contents[key := value];
          return true;
        }
        n := n + 1;
      }
      TableLookup(digest, buckets[..], Contents, key, n);
      if !nodeOk {
        return false;
      }
      TableInsert(digest, buckets[..], Contents, Slot(key, value));
      buckets[idx] := [Slot(key, value)] + chain;
      Contents := Contents[key := value];
      size := size + 1;
      return true;
    }
  }
}
