/** The cache: a cuckoo table of key/value items with six hash functions and an overflow basket. */
module Cache {
  import opened Bits
  import opened Rounding
  import opened Cuckoo
  import opened Entries
  import MergeSort
  import opened Options

  /** The length of a stored key is kept in 16 bits, and only so many bytes of it are ever looked at. */
  function Cut(k: Key): Key {
    k[..|k| % 0x1_0000]
  }

  /** A key that is not empty, but whose stored length is. */
  predicate Unshown(k: Key) {
    k != [] && |k| % 0x1_0000 == 0
  }

  datatype ProbeResult<V> = Inserted | Same(item: Item<V>) | NoRoom(home: nat)

  ghost predicate WordOK<V>(h: Hasher, it: Item<V>)
    reads it`ptr
  {
    it.ptr == Null || it.ptr == HashWord(h(0, it.str))
  }

  ghost predicate Live<V>(dir: map<Key, Item<V>>, it: Item<V>) {
    it.str in dir && dir[it.str] == it
  }

  /** Records linked through their pointer fields, from head up to tail. The basket ends with null. */
  ghost predicate Basket<V>(head: Item?<V>, o: seq<Item<V>>, tail: Item?<V>)
    reads o`ptr
  {
    if o == [] then head == tail
    else head == o[0] && !o[0].ptr.HashWord? && Basket(LinkOf(o[0].ptr), o[1..], tail)
  }

  lemma {:induction false} BasketSplit<V>(head: Item?<V>, a: seq<Item<V>>, b: seq<Item<V>>, tail: Item?<V>)
    requires Basket(head, a + b, tail)
    ensures var mid := if b == [] then tail else b[0]; Basket(head, a, mid) && Basket(mid, b, tail)
  {
    if a == [] {
      assert a + b == b;
    } else {
      assert (a + b)[1..] == a[1..] + b;
      BasketSplit(LinkOf(a[0].ptr), a[1..], b, tail);
    }
  }

  lemma {:induction false} BasketJoin<V>(head: Item?<V>, a: seq<Item<V>>, mid: Item?<V>, b: seq<Item<V>>,
                                         tail: Item?<V>)
    requires Basket(head, a, mid) && Basket(mid, b, tail)
    ensures Basket(head, a + b, tail)
  {
    if a == [] {
      assert a + b == b;
    } else {
      assert (a + b)[1..] == a[1..] + b;
      BasketJoin(LinkOf(a[0].ptr), a[1..], mid, b, tail);
    }
  }

  function LinkOf<V>(p: Ptr<V>): Item?<V> {
    if p.Next? then p.item else null
  }

  /** A record is live exactly when the directory lists it, and then its key is not empty; a dead one has length 0. */
  ghost predicate Lengths<V>(S: set<Item<V>>, dir: map<Key, Item<V>>)
    reads S`len
  {
    forall e :: e in S ==> if Live(dir, e) then e.len == |e.str| > 0 else e.len == 0
  }

  /** Outside the basket, the pointer field of a live record is its cached first hash or empty. */
  ghost predicate Words<V>(h: Hasher, S: set<Item<V>>, dir: map<Key, Item<V>>, o: seq<Item<V>>)
    reads S`ptr
  {
    forall e :: e in S && Live(dir, e) && e !in o ==> WordOK(h, e)
  }

  /** The comparison of lengths and bytes by which a record is recognised; a dead record never matches. */
  predicate SameKey<V>(it: Item<V>, key: Key)
    requires it.len <= |it.str|
    reads it`len
  {
    it.str[..it.len] == key
  }

  lemma SameKeyIffLive<V>(S: set<Item<V>>, dir: map<Key, Item<V>>, it: Item<V>, key: Key)
    requires Lengths(S, dir) && it in S && key != []
    requires forall k :: k in dir ==> dir[k].str == k
    ensures it.len <= |it.str| && (SameKey(it, key) <==> key in dir && dir[key] == it)
  {
    if it.len == |it.str| { assert it.str[..it.len] == it.str; }
  }

  lemma SameKeyIffTaken<V>(S: set<Item<V>>, dir: map<Key, Item<V>>, it: Item<V>, key: Key)
    requires Lengths(S, dir) && it in S
    requires forall k :: k in dir ==> dir[k].str == k
    ensures it.len <= |it.str| && (SameKey(it, key) <==> Taken(S, dir, it, key))
  {
    if key != [] { SameKeyIffLive(S, dir, it, key); }
  }

  /** A new record that has its own key, whatever that is. */
  ghost predicate Incoming<V>(h: Hasher, item: Item<V>, S: set<Item<V>>)
    reads item`len, item`ptr
  {
    item !in S && item.len == |item.str| && WordOK(h, item)
  }

  /** A new record becomes the live one of its key; with an empty key it is dead from the start. */
  ghost function Listed<V>(dir: map<Key, Item<V>>, item: Item<V>): map<Key, Item<V>> {
    if item.str == [] then dir else dir[item.str := item]
  }

  /** What a search for a key takes for its record: the live one, or for the empty key any dead one. */
  ghost predicate Taken<V>(S: set<Item<V>>, dir: map<Key, Item<V>>, it: Item<V>, key: Key) {
    it in S && if key == [] then !Live(dir, it) else key in dir && dir[key] == it
  }

  lemma IncomingKeepsRecords<V>(h: Hasher, item: Item<V>, S: set<Item<V>>, dir: map<Key, Item<V>>, o: seq<Item<V>>)
    requires Incoming(h, item, S) && item.str !in dir
    requires Lengths(S, dir) && Words(h, S, dir, o)
    ensures Lengths(S + {item}, Listed(dir, item))
    ensures Words(h, S + {item}, Listed(dir, item), o)
  {
  }

  class Cache<V> {
    const hash: Hasher
    var bucketSize: nat
    var bucketCount: nat
    var bucket: array<Item?<V>>
    var basket: Item?<V>
    var index: Item?<V>

    ghost var slots: seq<Item?<V>>       // the contents of the bucket array
    ghost var orphans: seq<Item<V>>      // the basket list
    ghost var entries: seq<Item<V>>      // the list of all records, dead ones included
    ghost var dir: map<Key, Item<V>>     // the live record of each key
    ghost var popped: nat                // records taken out of the basket since the last rehash

    /** The invariant of the table over its records S, while one of them is on its way between slots. */
    ghost predicate Moving(S: set<Item<V>>, pending: Item?<V>)
      reads this`bucket, this`bucketSize, this`bucketCount, this`basket, this`slots, this`orphans, this`dir, this`popped
      reads bucket, S`len, S`ptr
    {
      && bucket.Length == bucketSize && bucket[..] == slots
      && Layout(hash, slots, orphans, dir, pending)
      && Held(slots, orphans) <= S
      && (forall k :: k in dir ==> dir[k] in S)
      && bucketCount == Filled(slots) + |orphans| + popped
      && Lengths(S, dir)
      && Words(hash, S, dir, orphans)
      && Basket(basket, orphans, null)
    }

    ghost predicate Table(S: set<Item<V>>)
      reads this`bucket, this`bucketSize, this`bucketCount, this`basket, this`slots, this`orphans, this`dir, this`popped
      reads bucket, S`len, S`ptr
    {
      Moving(S, null)
    }

    /** The finite map that the cache stands for. */
    ghost function Contents(): (m: map<Key, V>)
      reads this`dir, dir.Values`val
    {
      map k | k in dir :: dir[k].val
    }

    twostate lemma SameContents()
      requires dir == old(dir) && forall k :: k in dir ==> dir[k].val == old(dir[k].val)
      ensures Contents() == old(Contents())
    {
    }

    twostate lemma MoreContents(item: Item<V>)
      requires dir == old(dir)[item.str := item]
      requires forall k :: k in old(dir) && k != item.str ==> dir[k].val == old(dir[k].val)
      ensures Contents() == old(Contents())[item.str := item.val]
    {
    }

    twostate lemma NewValue(key: Key)
      requires dir == old(dir) && key in dir
      requires forall k :: k in dir && k != key ==> dir[k].val == old(dir[k].val)
      ensures Contents() == old(Contents())[key := dir[key].val]
    {
    }

    lemma DirKeys(S: set<Item<V>>)
      requires Table(S)
      ensures forall k :: k in dir ==> dir[k].str == k
    {
      hide Filled, Held, Lengths, Words, Basket;
    }

    lemma NoEmptyKey(S: set<Item<V>>)
      requires Table(S)
      ensures [] !in dir
    {
    }

    /** The live record of a key, if any. */
    ghost function Holder(key: Key): Item?<V>
      reads this
    {
      if key in dir then dir[key] else null
    }

    /** Puts the record on its way into the free slot j that its i-th probe found. */
    method Fill(item: Item<V>, ghost i: nat, j: nat, ghost S: set<Item<V>>)
      requires Moving(S, item) && item in S
      requires j < bucket.Length && slots[j] == null && Probes(hash, slots, item.str, i, j)
      modifies this`bucketCount, this`slots, bucket
      ensures Table(S)
      ensures Held(slots, orphans) == old(Held(slots, orphans)) + {item}
    {
      FillKeepsLayout(hash, slots, orphans, dir, item, i, j);
      bucket[j] := item;
      slots := slots[j := item];
      bucketCount := bucketCount + 1;
    }

    /** Lists a new record as the live one of its key, if that is not empty. */
    ghost method Admit(item: Item<V>, S: set<Item<V>>)
      requires Table(S) && Incoming(hash, item, S) && item.str !in dir
      modifies this`dir
      ensures Moving(S + {item}, item)
      ensures dir == Listed(old(dir), item)
    {
      IncomingKeepsRecords(hash, item, S, dir, orphans);
      NewKeepsLayout(hash, slots, orphans, dir, item);
      dir := Listed(dir, item);
    }

    /** Puts a new record into the free slot j that its i-th probe found. */
    method Seat(item: Item<V>, ghost i: nat, j: nat, ghost S: set<Item<V>>)
      requires Table(S) && Incoming(hash, item, S) && item.str !in dir
      requires j < bucket.Length && slots[j] == null && Probes(hash, slots, item.str, i, j)
      modifies this`bucketCount, this`dir, this`slots, bucket
      ensures Table(S + {item}) && dir == Listed(old(dir), item)
      ensures Held(slots, orphans) == old(Held(slots, orphans)) + {item}
    {
      hide Layout, Filled, Held, Lengths, Words, Basket, Incoming, Listed;
      Admit(item, S);
      Fill(item, i, j, S + {item});
    }

    /** The first pass of a push: the six slots of the new key in order, up to the first free one. */
    method ProbeSlots(item: Item<V>, replace: int, ghost S: set<Item<V>>) returns (r: ProbeResult<V>)
      requires Table(S) && Incoming(hash, item, S)
      requires replace == 0 ==> item.str !in dir
      modifies this`bucketCount, this`dir, this`slots, bucket, item`ptr
      ensures WordOK(hash, item)
      ensures r.Inserted? ==>
        && Table(S + {item})
        && item.str !in old(dir) && dir == Listed(old(dir), item)
        && Held(slots, orphans) == old(Held(slots, orphans)) + {item}
      ensures !r.Inserted? ==> Table(S) && slots == old(slots) && dir == old(dir)
      ensures r.Same? ==> replace != 0 && Taken(S, dir, r.item, item.str)
      ensures r.NoRoom? ==>
        && Reach(hash, slots, HASHFN_COUNT, item.str)
        && r.home == Idx(hash, 0, item.str, slots)
        && (item.str in dir ==> replace != 0 && dir[item.str] in orphans)
    {
      var mask := bucketSize - 1;
      var home := 0;
      var i := 0;
      var j := 0;
      var slot: Item?<V> := null;
      while i < HASHFN_COUNT
        modifies item`ptr
        invariant i <= HASHFN_COUNT && WordOK(hash, item) && Table(S)
        invariant Reach(hash, slots, i, item.str)
        invariant j < bucketSize
        invariant i > 0 ==> home == Idx(hash, 0, item.str, slots)
        invariant Holder(item.str) != null ==> NotMet(hash, slots, item.str, i, Holder(item.str))
      {
        var word := HashOf(item, i);
        j := And(word, mask);
        assert j == Idx(hash, i, item.str, slots);
        slot := bucket[j];
        assert slot == slots[j];
        if slot == null { break; }
        SlotIsRecord(S, j, item.str);
        if replace != 0 && SameKey(slot, item.str) {
          return Same(slot);
        }
        ProbeOn(hash, slots, item.str, i, Holder(item.str));
        if i == 0 { home := j; }
        i := i + 1;
      }
      if i < HASHFN_COUNT {
        MetBeforeFreeSlot(hash, slots, orphans, item.str, Holder(item.str), i);
        Seat(item, i, j, S);
        return Inserted;
      }
      NotSeatedMeansOrphan(hash, slots, orphans, item.str, Holder(item.str));
      return NoRoom(home);
    }

    /** The i-th hash of an item's key; the first one is computed once and kept in the pointer field. */
    method HashOf(item: Item<V>, i: nat) returns (word: nat)
      requires WordOK(hash, item)
      modifies item`ptr
      ensures word == hash(i, item.str) && WordOK(hash, item)
    {
      if i == 0 {
        word := if item.ptr.HashWord? then item.ptr.word else 0;
        if word == 0 {
          word := hash(0, item.str);
          item.ptr := if word == 0 then Null else HashWord(word);
        }
      } else {
        word := hash(i, item.str);
      }
    }

    lemma SlotIsRecord(S: set<Item<V>>, j: nat, key: Key)
      requires Table(S) && j < bucketSize && slots[j] != null
      ensures slots[j] in S && slots[j].len <= |slots[j].str|
      ensures SameKey(slots[j], key) <==> Taken(S, dir, slots[j], key)
    {
      assert slots[j] in Held(slots, orphans);
      SameKeyIffTaken(S, dir, slots[j], key);
    }

    /** Tries the six slots of a displaced record in order. */
    method Settle(item: Item<V>, ghost S: set<Item<V>>) returns (settled: bool, last: nat)
      requires Moving(S, item) && item in S
      modifies this`bucketCount, this`slots, bucket
      ensures settled ==> Table(S) && Held(slots, orphans) == old(Held(slots, orphans)) + {item}
      ensures !settled ==> Moving(S, item) && slots == old(slots) && Reach(hash, slots, HASHFN_COUNT, item.str)
      ensures !settled ==> Probes(hash, slots, item.str, HASHFN_COUNT - 1, last)
    {
      var i := 0;
      last := 0;
      while i < HASHFN_COUNT
        modifies {}
        invariant i <= HASHFN_COUNT && Reach(hash, slots, i, item.str) && last < bucketSize
        invariant i > 0 ==> last == Idx(hash, i - 1, item.str, slots)
      {
        last := And(hash(i, item.str), bucketSize - 1);
        assert last == Idx(hash, i, item.str, slots) && bucket[last] == slots[last];
        if bucket[last] == null { break; }
        ProbeOn(hash, slots, item.str, i, null);
        i := i + 1;
      }
      if i == HASHFN_COUNT {
        return false, last;
      }
      assert Probes(hash, slots, item.str, i, last);
      Fill(item, i, last, S);
      return true, last;
    }

    /** Puts the displaced record into an occupied slot of its own and takes the occupant out. */
    method Evict(item: Item<V>, ghost i: nat, j: nat, ghost S: set<Item<V>>) returns (out: Item<V>)
      requires Moving(S, item) && item in S
      requires j < bucket.Length && slots[j] != null && Probes(hash, slots, item.str, i, j)
      modifies this`slots, bucket
      ensures Moving(S, out) && out in S
      ensures out in old(Held(slots, orphans)) && item !in old(Held(slots, orphans))
      ensures Held(slots, orphans) == old(Held(slots, orphans)) + {item} - {out}
    {
      EvictKeepsLayout(hash, slots, orphans, dir, item, i, j);
      assert bucket[j] == slots[j];
      out := bucket[j];
      bucket[j] := item;
      slots := slots[j := item];
    }

    /** Puts a displaced record that has no free slot at the front of the basket. */
    method Strand(item: Item<V>, ghost S: set<Item<V>>)
      requires Moving(S, item) && item in S && Reach(hash, slots, HASHFN_COUNT, item.str)
      modifies this`bucketCount, this`basket, this`orphans, item`ptr
      ensures Table(S)
      ensures orphans == [item] + old(orphans)
      ensures Held(slots, orphans) == old(Held(slots, orphans)) + {item}
    {
      StrandKeepsLayout(hash, slots, orphans, dir, item);
      ghost var o := orphans;
      item.ptr := if basket == null then Null else Next(basket);
      basket := item;
      bucketCount := bucketCount + 1;
      orphans := [item] + o;
      assert orphans[1..] == o;
    }

    /** One retry: the record takes slot j, and the record found there, unless dead, looks for a free slot. */
    method Kick(item: Item<V>, ghost i: nat, j: nat, ghost S: set<Item<V>>)
      returns (done: bool, out: Item<V>, last: nat)
      requires Moving(S, item) && item in S
      requires j < bucket.Length && slots[j] != null && Probes(hash, slots, item.str, i, j)
      modifies this`bucketCount, this`slots, bucket
      ensures done ==> Table(S) && Held(slots, orphans) <= old(Held(slots, orphans)) + {item}
      ensures !done ==> Moving(S, out) && out in S && Reach(hash, slots, HASHFN_COUNT, out.str)
      ensures !done ==> Probes(hash, slots, out.str, HASHFN_COUNT - 1, last)
      ensures !done ==> Held(slots, orphans) + {out} == old(Held(slots, orphans)) + {item}
    {
      last := 0;
      out := Evict(item, i, j, S);
      done := out.len == 0;
      if !done {
        done, last := Settle(out, S);
      }
    }

    /** The retries: each takes a slot from its occupant, which then looks for a free slot of its own. */
    method Displace(item: Item<V>, home: nat, ghost S: set<Item<V>>)
      requires Table(S) && Incoming(hash, item, S) && item.str !in dir
      requires Reach(hash, slots, HASHFN_COUNT, item.str) && home == Idx(hash, 0, item.str, slots)
      modifies this`bucketCount, this`dir, this`slots, this`orphans, this`basket, bucket, S`ptr, item`ptr
      ensures Table(S + {item})
      ensures dir == Listed(old(dir), item)
      ensures Held(slots, orphans) <= old(Held(slots, orphans)) + {item}
    {
      ghost var T := S + {item};
      Admit(item, S);
      var cur := item;
      var index := home;
      ghost var i: nat := 0;
      var retry := 0;
      while retry < CUCKOO_RETRY
        modifies this`bucketCount, this`slots, bucket
        invariant Moving(T, cur) && cur in T
        invariant Reach(hash, slots, HASHFN_COUNT, cur.str) && Probes(hash, slots, cur.str, i, index)
        invariant Held(slots, orphans) + {cur} == old(Held(slots, orphans)) + {item}
      {
        var done;
        done, cur, index := Kick(cur, i, index, T);
        if done {
          return;
        }
        i := HASHFN_COUNT - 1;
        retry := retry + 1;
      }
      Strand(cur, T);
    }

    /** Walks the basket for a record of the key. */
    method SearchBasket(key: Key, ghost S: set<Item<V>>) returns (it: Item?<V>)
      requires Table(S)
      ensures it == null ==> key in dir ==> dir[key] !in orphans
      ensures it != null ==> Taken(S, dir, it, key)
    {
      it := basket;
      ghost var rest := orphans;
      while it != null
        invariant Basket(it, rest, null) && forall e :: e in rest ==> e in orphans
        invariant key in dir && dir[key] in orphans ==> dir[key] in rest
        decreases |rest|
      {
        OrphanIsRecord(S, it, key);
        if SameKey(it, key) {
          return;
        }
        it := LinkOf(it.ptr);
        rest := rest[1..];
      }
    }

    lemma OrphanIsRecord(S: set<Item<V>>, it: Item<V>, key: Key)
      requires Table(S) && it in orphans
      ensures it in S && it.len <= |it.str|
      ensures SameKey(it, key) <==> Taken(S, dir, it, key)
    {
      SameKeyIffTaken(S, dir, it, key);
    }

    /** Stores a record, unless it is told to look for a record of the same key and length and meets one. */
    method Store(item: Item<V>, replace: int, ghost S: set<Item<V>>) returns (slot: Item?<V>)
      requires Table(S) && Incoming(hash, item, S)
      requires replace == 0 ==> item.str !in dir
      modifies this, bucket, S`ptr, item`ptr
      ensures slot == null ==> item.str !in old(dir) && Table(S + {item}) && dir == Listed(old(dir), item)
      ensures slot != null ==> replace != 0 && Taken(S, dir, slot, item.str) && Table(S) && dir == old(dir)
      ensures bucket == old(bucket) && bucketSize == old(bucketSize) && popped == old(popped)
      ensures index == old(index) && entries == old(entries)
    {
      hide Layout, Filled, Held, Lengths, Words, Basket, EntryChain, IsPow2;
      var r := ProbeSlots(item, replace, S);
      if r.Inserted? {
        return null;
      }
      slot := null;
      if r.Same? {
        slot := r.item;
      } else if replace != 0 {
        slot := SearchBasket(item.str, S);
      }
      if slot == null {
        Displace(item, r.home, S);
      }
    }

    /** `_cache_push`: stores a record, or exchanges values with the live record of its key. */
    method Push(item: Item<V>, replace: int, ghost S: set<Item<V>>) returns (met: Option<V>)
      requires Table(S) && Incoming(hash, item, S)
      requires replace == 0 ==> item.str !in dir
      modifies this, bucket, S`ptr, S`val, item`ptr
      ensures Table(if met == None then S + {item} else S)
      ensures dir == if met == None then Listed(old(dir), item) else old(dir)
      ensures item.str != [] && item.str !in old(Contents()) ==>
        met == None && Contents() == old(Contents())[item.str := item.val]
      ensures item.str in old(Contents()) && replace == -1 ==> met == Some(item.val) && Contents() == old(Contents())
      ensures item.str in old(Contents()) && replace != -1 ==>
        met == Some(old(Contents())[item.str]) && Contents() == old(Contents())[item.str := item.val]
      ensures item.str == [] ==> Contents() == old(Contents())
      ensures item.str == [] && met != None ==>
        if replace == -1 then met == Some(item.val) else exists e :: e in S && e.len == 0 && met == Some(old(e.val))
      ensures replace == 0 ==> forall e :: e in S ==> e.val == old(e.val)
      ensures bucket == old(bucket) && bucketSize == old(bucketSize) && popped == old(popped)
      ensures index == old(index) && entries == old(entries)
    {
      hide Layout, Filled, Held, Lengths, Words, Basket, EntryChain, IsPow2;
      NoEmptyKey(S);
      var slot := Store(item, replace, S);
      if slot == null {
        if item.str == [] { SameContents(); } else { MoreContents(item); }
        return None;
      }
      if replace == -1 {
        met := Some(item.val);
        SameContents();
      } else {
        met := Some(slot.val);
        DirKeys(S);
        assert item.str == [] ==> slot.len == 0 by { DeadIsShort(S, slot); }
        slot.val := item.val;
        if item.str == [] { SameContents(); } else { NewValue(item.str); }
      }
    }

    lemma DeadIsShort(S: set<Item<V>>, it: Item<V>)
      requires Table(S) && it in S
      ensures !Live(dir, it) ==> it.len == 0
    {
    }

    /** Puts a record that the table already holds at the front of the entry list. */
    method Link(item: Item<V>)
      requires EntryChain(index, entries) && item !in entries
      modifies this`index, this`entries, item`next
      ensures EntryChain(index, entries) && entries == [item] + old(entries)
    {
      item.next := index;
      index := item;
      entries := [item] + entries;
      assert entries[1..] == old(entries);
    }

    ghost function Records(): set<Item<V>>
      reads this`entries
    {
      Elems(entries)
    }

    /** A push that looks for nothing, and the link that makes the record part of the entry list. */
    method Adopt(item: Item<V>)
      requires Table(Records()) && EntryChain(index, entries)
      requires Incoming(hash, item, Records()) && item.str !in dir && item.str != []
      modifies this, bucket, Records()`ptr, Records()`val, item`ptr, item`next
      ensures bucket == old(bucket) && bucketSize == old(bucketSize) && popped == old(popped)
      ensures Table(Records()) && EntryChain(index, entries)
      ensures entries == [item] + old(entries) && dir == old(dir)[item.str := item]
      ensures forall e :: e in old(entries) ==> e.val == old(e.val)
    {
      hide Layout, Filled, Held, Lengths, Words, Basket, EntryChain, IsPow2;
      ghost var S := Records();
      var met := Push(item, 0, S);
      Link(item);
      assert Records() == S + {item};
    }

    /** Empties the basket; every live record then has its cached hash or nothing in its pointer field. */
    method ClearBasket()
      requires Basket(basket, orphans, null)
      requires forall p, q :: 0 <= p < q < |orphans| ==> orphans[p] != orphans[q]
      requires Words(hash, Records(), dir, orphans)
      modifies this`basket, this`orphans, orphans`ptr
      ensures basket == null && orphans == []
      ensures Words(hash, Records(), dir, [])
    {
      var item := basket;
      basket := null;
      while item != null
        modifies this`orphans, old(orphans)`ptr
        invariant Basket(item, orphans, null)
        invariant forall p, q :: 0 <= p < q < |orphans| ==> orphans[p] != orphans[q]
        invariant forall e :: e in orphans ==> e in old(orphans)
        invariant Words(hash, Records(), dir, orphans)
        decreases |orphans|
      {
        assert item in orphans;
        var tmp := LinkOf(item.ptr);
        item.ptr := Null;
        item := tmp;
        orphans := orphans[1..];
      }
    }

    /** Records awaiting their turn in a rehash, judged by the old directory. */
    ghost predicate Waiting(T: set<Item<V>>, D: map<Key, Item<V>>)
      reads T`len, T`ptr
    {
      Lengths(T, D) && Words(hash, T, D, [])
    }

    /** An empty table of the given size. */
    method Renew(size: nat)
      requires size > 0 && basket == null && orphans == []
      modifies this
      ensures fresh(bucket) && bucketSize == size && index == null && entries == [] && dir == map[] && popped == 0
      ensures Table(Records()) && EntryChain(index, entries)
    {
      bucket := new Item?<V>[size](_ => null);
      bucketSize, bucketCount, index := size, 0, null;
      slots, entries, dir, popped := bucket[..], [], map[], 0;
      EmptyLayout(hash, slots);
    }

    /** The part of the directory that lists the given records. */
    static ghost function Listing(D: map<Key, Item<V>>, T: set<Item<V>>): map<Key, Item<V>> {
      map k | k in D && D[k] in T :: D[k]
    }

    /** A rehash of the records T, listed by D, that has dealt with all but those of the list from b on. */
    ghost predicate Rebuilding(T: set<Item<V>>, D: map<Key, Item<V>>, b: Item?<V>, rest: seq<Item<V>>)
      reads this, bucket, rest`len, rest`ptr, rest`next, Records()`len, Records()`ptr, Records()`next
    {
      && EntryChain(b, rest) && Waiting(Elems(rest), D)
      && Table(Records()) && EntryChain(index, entries)
      && dir == Listing(D, T - Elems(rest))
      && Elems(rest) <= T && Records() <= T - Elems(rest)
      && forall e :: e in entries ==> Live(D, e)
    }

    static lemma ListingAll(D: map<Key, Item<V>>, T: set<Item<V>>)
      requires forall k :: k in D ==> D[k] in T
      ensures Listing(D, T - Elems([])) == D
    {
    }

    static lemma ListingNext(D: map<Key, Item<V>>, T: set<Item<V>>, rest: seq<Item<V>>)
      requires rest != [] && rest[0] !in rest[1..] && Elems(rest) <= T && forall k :: k in D ==> D[k].str == k
      ensures T - Elems(rest[1..]) == T - Elems(rest) + {rest[0]}
      ensures var d, d' := Listing(D, T - Elems(rest)), Listing(D, T - Elems(rest[1..]));
        if Live(D, rest[0]) then rest[0].str !in d && d' == d[rest[0].str := rest[0]] else d' == d
    {
      assert forall e :: e in rest <==> e == rest[0] || e in rest[1..];
    }

    /** A live record of the old entry list is put into the new table. */
    method KeepLive(b: Item<V>, ghost rest: seq<Item<V>>, ghost T: set<Item<V>>, ghost D: map<Key, Item<V>>)
      requires Rebuilding(T, D, b, rest) && b.len != 0
      requires forall k :: k in D ==> D[k].str == k
      modifies this, bucket, Records()`ptr, Records()`val, b`ptr, b`next
      ensures rest != [] && Rebuilding(T, D, old(b.next), rest[1..])
      ensures bucket == old(bucket) && bucketSize == old(bucketSize) && popped == old(popped)
      ensures forall e :: e in old(entries) ==> e.val == old(e.val)
    {
      hide Layout, Filled, Held, Lengths, Words, Basket, IsPow2;
      ListingNext(D, T, rest);
      assert b in rest && forall e :: e in rest[1..] ==> e in rest;
      NextWaits(b, rest, D);
      Adopt(b);
    }

    lemma NextWaits(b: Item<V>, rest: seq<Item<V>>, D: map<Key, Item<V>>)
      requires rest != [] && rest[0] == b && b.len != 0 && Waiting(Elems(rest), D) && b !in Records()
      ensures Incoming(hash, b, Records()) && Live(D, b) && Waiting(Elems(rest[1..]), D)
    {
      assert b in rest && forall e :: e in rest[1..] ==> e in rest;
    }

    /** A dead record of the old entry list is left out. */
    lemma DropDead(b: Item<V>, rest: seq<Item<V>>, T: set<Item<V>>, D: map<Key, Item<V>>)
      requires Rebuilding(T, D, b, rest) && b.len == 0
      requires forall k :: k in D ==> D[k].str == k
      ensures rest != [] && Rebuilding(T, D, b.next, rest[1..])
    {
      ListingNext(D, T, rest);
      assert b in rest && forall e :: e in rest[1..] ==> e in rest;
    }

    /** Rebuilds the table from its entry list, which loses its dead records. */
    method Rehash(size: nat)
      requires size > 0 && basket == null && orphans == []
      requires EntryChain(index, entries) && Waiting(Records(), dir)
      requires forall k :: k in dir ==> dir[k] in Records() && dir[k].str == k
      modifies this, Records()`ptr, Records()`val, Records()`next
      ensures Table(Records()) && EntryChain(index, entries)
      ensures fresh(bucket) && bucketSize == size && popped == 0
      ensures dir == old(dir) && (forall e :: e in entries ==> Live(dir, e)) && Records() <= old(Records())
      ensures forall e :: e in old(entries) ==> e.val == old(e.val)
    {
      ghost var T, D, rest := Records(), dir, entries;
      var b := index;
      Renew(size);
      assert Rebuilding(T, D, b, rest);
      while b != null
        invariant Rebuilding(T, D, b, rest)
        invariant fresh(bucket) && bucketSize == size && popped == 0
        invariant forall e :: e in T ==> e.val == old(e.val)
        decreases |rest|
      {
        var next := b.next;
        if b.len != 0 {
          KeepLive(b, rest, T, D);
        } else {
          DropDead(b, rest, T, D);
        }
        b, rest := next, rest[1..];
      }
      ListingAll(D, T);
    }

    ghost predicate Valid()
      reads this, bucket, Records()
    {
      && Table(Records()) && EntryChain(index, entries)
      && bucketSize >= 4 && IsPow2(bucketSize)
    }

    /** Sizes are 32-bit masks, and the growth ratio must not take them out of range. */
    predicate Small()
      reads this
    {
      bucketSize < 0x8000_0000 && bucketCount < 0x8000_0000
    }

    /** The load that calls for a rehash: `_bucket_count * CACHE_GROWTHRATIO >= _bucket_size`. */
    predicate Loaded()
      reads this
    {
      bucketCount * 166 >= bucketSize * 100
    }

    lemma BasketIsOrdered(S: set<Item<V>>)
      requires Table(S)
      ensures forall p, q :: 0 <= p < q < |orphans| ==> orphans[p] != orphans[q]
      ensures forall e :: e in orphans ==> e in S
    {
      hide Filled, Lengths, Words, Basket;
    }

    static lemma RoundUpIsEnough(size: nat)
      requires 0 < size <= TWO32
      ensures IsPow2(RoundUp(size)) && RoundUp(size) >= size
    {
      var k := RoundUpIsLeastPower(size);
    }

    /** The basket is cleared and the table rebuilt. */
    method Rebuild(size: nat)
      requires Table(Records()) && EntryChain(index, entries) && size > 0
      modifies this, Records()`ptr, Records()`val, Records()`next
      ensures Table(Records()) && EntryChain(index, entries)
      ensures fresh(bucket) && bucketSize == size && popped == 0
      ensures dir == old(dir) && (forall e :: e in entries ==> Live(dir, e)) && Records() <= old(Records())
      ensures forall e :: e in old(entries) ==> e.val == old(e.val)
    {
      hide Layout, Filled, Held, Lengths, Words, Basket, EntryChain;
      BasketIsOrdered(Records());
      DirKeys(Records());
      ClearBasket();
      Rehash(size);
    }

    /** `_cache_resize`: a rehash into at least as many slots, if the load calls for one. */
    method Resize(size: nat)
      requires Valid() && (Loaded() ==> bucketSize <= size <= TWO32)
      modifies this, Records()
      ensures Valid() && Records() <= old(Records())
      ensures bucket == old(bucket) || fresh(bucket)
      ensures bucketSize >= old(bucketSize)
      ensures dir == old(dir) && Contents() == old(Contents())
      ensures old(Loaded()) ==> popped == 0 && forall e :: e in entries ==> Live(dir, e)
    {
      hide Layout, Filled, Held, Lengths, Words, Basket, EntryChain, IsPow2;
      if bucketCount * 166 < bucketSize * 100 {
        return;
      }
      RoundUpIsEnough(size);
      Rebuild(RoundUp(size));
      SameContents();
    }

    /** Links the record before tmp, if there is one, to the record after it. */
    method Bypass(tmp: Item<V>, prev: Item<V>, ghost front: seq<Item<V>>, ghost rest: seq<Item<V>>)
      requires Basket(basket, front + ([tmp] + rest), null)
      requires prev == if front == [] then tmp else front[|front| - 1]
      requires front != [] ==> prev !in front[..|front| - 1] && prev !in rest && prev != tmp && basket != tmp
      modifies this`basket, prev`ptr
      ensures Basket(basket, front + rest, null)
    {
      BasketSplit(basket, front, [tmp] + rest, null);
      assert ([tmp] + rest)[1..] == rest;
      if tmp == basket {
        basket := LinkOf(tmp.ptr);
        assert front + rest == rest;
      } else {
        ghost var most := front[..|front| - 1];
        assert front == most + [prev];
        BasketSplit(basket, most, [prev], tmp);
        prev.ptr := tmp.ptr;
        BasketJoin(basket, most, prev, [prev], LinkOf(tmp.ptr));
        BasketJoin(basket, front, LinkOf(tmp.ptr), rest, null);
      }
    }

    /** What the basket is without one of its records. */
    lemma ShorterBasket(tmp: Item<V>, prev: Item<V>, p: nat, S: set<Item<V>>)
      requires Table(S) && p < |orphans| && orphans[p] == tmp && tmp.str !in dir
      requires prev == if p == 0 then tmp else orphans[p - 1]
      ensures var front, rest := orphans[..p], orphans[p + 1..];
        && orphans == front + ([tmp] + rest) && Basket(basket, front + ([tmp] + rest), null)
        && Layout(hash, slots, front + rest, dir, null) && Held(slots, front + rest) <= S
        && (front != [] ==> prev !in front[..|front| - 1] && prev !in rest && prev != tmp && basket != tmp)
        && (forall k :: k in dir ==> dir[k] != tmp)
        && (forall e :: e !in front + rest && e != tmp ==> e !in orphans && e != prev)
    {
      hide Filled, Lengths, Words, Basket;
      RemoveOrphan(hash, slots, orphans, dir, p);
      BasketStarts(basket, orphans);
    }

    static lemma BasketStarts(head: Item?<V>, o: seq<Item<V>>)
      requires Basket(head, o, null) && o != []
      ensures head == o[0]
    {
    }

    /** Unlinks a record from the basket; prev is its predecessor, or the record itself when it is first. */
    method Unlink(tmp: Item<V>, prev: Item<V>, ghost p: nat, ghost S: set<Item<V>>)
      requires Table(S) && p < |orphans| && orphans[p] == tmp && tmp.str !in dir
      requires prev == if p == 0 then tmp else orphans[p - 1]
      modifies this`basket, this`orphans, this`popped, prev`ptr
      ensures Table(S) && Contents() == old(Contents())
    {
      hide Layout, Filled, Held, Lengths, Basket;
      ghost var front, rest := orphans[..p], orphans[p + 1..];
      ShorterBasket(tmp, prev, p, S);
      Bypass(tmp, prev, front, rest);
      orphans := front + rest;
      popped := popped + 1;
      SameContents();
    }

    /** Makes the live record of a key dead. */
    method Bury(item: Item<V>, ghost S: set<Item<V>>)
      requires Table(S) && item in S && Live(dir, item)
      modifies this`dir, item`len
      ensures Table(S) && dir == old(dir) - {item.str}
      ensures Contents() == old(Contents()) - {item.str}
    {
      hide Layout, Filled, Held, Basket, EntryChain, IsPow2;
      FewerKeepLayout(hash, slots, orphans, dir, item.str);
      item.len := 0;
      dir := dir - {item.str};
    }

    /** Looks through the six slots of a key; `early` says whether a free slot ends the search. */
    method SearchSlots(key: Key, early: bool, ghost S: set<Item<V>>) returns (it: Item?<V>)
      requires Table(S) && key != []
      ensures it != null ==> key in dir && dir[key] == it
      ensures it == null && key in dir ==> dir[key] in orphans
    {
      hide Held, Filled, Lengths, Words, Basket, EntryChain, IsPow2, Located, OnceEach, Absent, And;
      var i := 0;
      while i < HASHFN_COUNT
        invariant i <= HASHFN_COUNT
        invariant Holder(key) != null ==> NotMet(hash, slots, key, i, Holder(key))
      {
        var j := And(hash(i, key), bucketSize - 1);
        assert j == Idx(hash, i, key, slots);
        it := bucket[j];
        assert it == slots[j];
        if it == null {
          if early {
            MetBeforeFreeSlot(hash, slots, orphans, key, Holder(key), i);
            return null;
          }
        } else {
          SlotIsRecord(S, j, key);
          if SameKey(it, key) {
            return;
          }
        }
        i := i + 1;
      }
      NotSeatedMeansOrphan(hash, slots, orphans, key, Holder(key));
      return null;
    }

    /** Walks the basket for a record of the key and its predecessor. */
    method SearchBasketPair(key: Key, ghost S: set<Item<V>>) returns (it: Item?<V>, prev: Item?<V>, ghost p: nat)
      requires Table(S) && key != []
      ensures it == null && key in dir ==> dir[key] !in orphans
      ensures it != null ==> key in dir && dir[key] == it && p < |orphans| && orphans[p] == it
      ensures it != null ==> prev == if p == 0 then it else orphans[p - 1]
    {
      it, prev, p := basket, basket, 0;
      while it != null
        invariant p <= |orphans| && Basket(it, orphans[p..], null)
        invariant p < |orphans| ==> prev == if p == 0 then it else orphans[p - 1]
        invariant key in dir && dir[key] in orphans ==> dir[key] in orphans[p..]
        decreases |orphans| - p
      {
        assert orphans[p..][1..] == orphans[p + 1..];
        OrphanIsRecord(S, it, key);
        if SameKey(it, key) {
          return;
        }
        prev := it;
        it := LinkOf(it.ptr);
        p := p + 1;
      }
    }

    /** `cache_alloc`: an empty table of four slots. */
    constructor (h: Hasher)
      ensures Valid() && fresh(this) && fresh(bucket) && Records() == {} && hash == h && Contents() == map[]
    {
      hide Layout, Filled, Held, IsPow2, RoundUp;
      hash := h;
      bucketSize, bucketCount, basket, index := 0, 0, null, null;
      bucket := new Item?<V>[0];
      slots, orphans, entries, dir, popped := [], [], [], map[], 0;
      new;
      RoundUpIsEnough(4);
      Rehash(RoundUp(4));
    }

    /** `cache_findexec`: the value of a key, through the callback if there is one; `cache_find` without. */
    method Find(key: Key, f: Option<V -> V>) returns (r: Option<V>)
      requires Valid()
      ensures key !in Contents() ==> r == None
      ensures key in Contents() ==> r == Some(if f == None then Contents()[key] else f.value(Contents()[key]))
    {
      if key == [] {
        return None;
      }
      var it := SearchSlots(key, true, Records());
      if it == null {
        it := SearchBasket(key, Records());
      }
      if it == null {
        return None;
      }
      return Some(if f == None then it.val else f.value(it.val));
    }

    /** A push into the table and, for a key that was not there, into the entry list. */
    method Enter(item: Item<V>, replace: int) returns (r: Option<V>)
      requires Valid() && Incoming(hash, item, Records()) && replace != 0
      modifies this, bucket, Records()`ptr, Records()`val, item`ptr, item`next
      ensures Valid() && Records() <= old(Records()) + {item}
      ensures bucket == old(bucket) && bucketSize == old(bucketSize)
      ensures item.str != [] && item.str !in old(Contents()) ==>
        r == None && Contents() == old(Contents())[item.str := item.val]
      ensures item.str in old(Contents()) && replace == -1 ==> r == Some(item.val) && Contents() == old(Contents())
      ensures item.str in old(Contents()) && replace != -1 ==>
        r == Some(old(Contents())[item.str]) && Contents() == old(Contents())[item.str := item.val]
      ensures item.str == [] ==> Contents() == old(Contents())
      ensures item.str == [] && r != None ==>
        if replace == -1 then r == Some(item.val)
        else exists e :: e in old(Records()) && old(e.len) == 0 && r == Some(old(e.val))
    {
      hide Layout, Filled, Held, Lengths, Words, Basket, EntryChain, IsPow2, Contents, Listed, WordOK;
      ghost var S := Records();
      r := Push(item, replace, S);
      if r == None {
        Link(item);
        assert Records() == S + {item};
      }
    }

    /**
     * `_cache_add`: with replace 1, `cache_push`; with replace -1, `cache_add`. A key whose stored length is empty is
     * taken for that of the dead records: it enters as one of them or is exchanged for one.
     */
    method Add(key: Key, v: V, replace: int) returns (r: Option<V>)
      requires Valid() && Small() && (replace == 1 || replace == -1)
      modifies this, bucket, Records()
      ensures Valid() && bucketSize >= old(bucketSize)
      ensures bucket == old(bucket) || fresh(bucket)
      ensures forall e :: e in Records() ==> e in old(Records()) || fresh(e)
      ensures key == [] ==> r == Some(v) && Contents() == old(Contents())
      ensures var k := key[..|key| % 0x1_0000];
        k != [] && k !in old(Contents()) ==> r == None && Contents() == old(Contents())[k := v]
      ensures var k := key[..|key| % 0x1_0000];
        k in old(Contents()) && replace == -1 ==> r == Some(v) && Contents() == old(Contents())
      ensures var k := key[..|key| % 0x1_0000];
        k in old(Contents()) && replace != -1 ==>
          r == Some(old(Contents())[k]) && Contents() == old(Contents())[k := v]
      ensures key != [] && |key| % 0x1_0000 == 0 ==> Contents() == old(Contents())
      ensures key != [] && |key| % 0x1_0000 == 0 && r != None ==>
        if replace == -1 then r == Some(v)
        else exists e :: e in old(Records()) && old(e.len) == 0 && r == Some(old(e.val))
    {
      hide Layout, Filled, Held, Lengths, Words, Basket, EntryChain, IsPow2;
      if key == [] {
        NoEmptyKey(Records());
        return Some(v);
      }
      NoEmptyKey(Records());
      var item := new Item(Cut(key), v);
      r := Enter(item, replace);
      if basket != null && basket.ptr.Next? {
        Resize(bucketSize + 1);
      }
    }

    method TakeFromSlots(key: Key, ghost S: set<Item<V>>) returns (r: Option<V>)
      requires Table(S) && key != []
      modifies this`dir, S`len
      ensures Table(S)
      ensures r == None ==> dir == old(dir) && Contents() == old(Contents()) && (key in dir ==> dir[key] in orphans)
      ensures r != None ==> key in old(Contents()) && r == Some(old(Contents())[key])
      ensures r != None ==> Contents() == old(Contents()) - {key}
    {
      hide Filled, Held, Lengths, Words, Basket, EntryChain, IsPow2;
      var it := SearchSlots(key, false, S);
      if it == null {
        return None;
      }
      r := Some(it.val);
      Bury(it, S);
    }

    method TakeFromBasket(key: Key, ghost S: set<Item<V>>) returns (r: Option<V>)
      requires Table(S) && key != [] && (key in dir ==> dir[key] in orphans)
      modifies this`dir, this`basket, this`orphans, this`popped, S`len, S`ptr
      ensures Table(S)
      ensures r == if key in old(Contents()) then Some(old(Contents())[key]) else None
      ensures Contents() == old(Contents()) - {key}
    {
      hide Filled, Held, Words, Basket, EntryChain, IsPow2;
      var it, prev, p := SearchBasketPair(key, S);
      if it == null {
        assert Contents() == Contents() - {key};
        return None;
      }
      r := Some(it.val);
      BasketIsOrdered(S);
      Bury(it, S);
      Unlink(it, prev, p, S);
    }

    /** `cache_pop`: takes a key out of the table; a miss is the occasion to collect the dead records. */
    method Pop(key: Key) returns (r: Option<V>)
      requires Valid() && Small()
      modifies this, bucket, Records()
      ensures Valid() && bucketSize >= old(bucketSize)
      ensures bucket == old(bucket) || fresh(bucket)
      ensures forall e :: e in Records() ==> e in old(Records()) || fresh(e)
      ensures r == if key in old(Contents()) then Some(old(Contents())[key]) else None
      ensures key !in Contents()
      ensures forall k :: k != key ==> (k in Contents() <==> k in old(Contents()))
      ensures forall k :: k in Contents() ==> k in old(Contents()) && Contents()[k] == old(Contents())[k]
    {
      hide Layout, Filled, Held, Lengths, Words, Basket, EntryChain, IsPow2;
      if key == [] {
        NoEmptyKey(Records());
        assert Contents() == Contents() - {key};
        return None;
      }
      r := TakeFromSlots(key, Records());
      if r == None {
        r := TakeFromBasket(key, Records());
      }
      if r == None {
        Resize(bucketCount * 166 / 100);
      }
    }

    /** The directory of a foreach that has called f for all records but those of the list. */
    static ghost function Surviving(D: map<Key, Item<V>>, m: map<Key, V>, f: (Key, V) -> int, rest: seq<Item<V>>)
      : map<Key, Item<V>>
    {
      map k | k in D && k in m && (D[k] in rest || f(k, m[k]) != -1) :: D[k]
    }

    static lemma SurvivingNext(D: map<Key, Item<V>>, m: map<Key, V>, f: (Key, V) -> int, rest: seq<Item<V>>,
                               d: map<Key, Item<V>>, v: V)
      requires D.Keys == m.Keys && (forall k :: k in D ==> D[k].str == k)
      requires rest != [] && rest[0] !in rest[1..]
      requires d == Surviving(D, m, f, rest) && (Live(D, rest[0]) ==> v == m[rest[0].str])
      ensures var b := rest[0];
        Surviving(D, m, f, rest[1..]) == if Live(d, b) && f(b.str, v) == -1 then d - {b.str} else d
    {
      assert forall e :: e in rest <==> e == rest[0] || e in rest[1..];
    }

    lemma SurvivingAll(D: map<Key, Item<V>>, m: map<Key, V>, f: (Key, V) -> int)
      requires dir == Surviving(D, m, f, [])
      requires D.Keys == m.Keys && forall k :: k in D ==> D[k].val == m[k]
      ensures forall k :: k in Contents() <==> k in m && f(k, m[k]) != -1
      ensures forall k :: k in Contents() ==> k in m && Contents()[k] == m[k]
    {
    }

    /** One callback; a dead record is passed over. */
    method Visit(b: Item<V>, f: (Key, V) -> int, ghost S: set<Item<V>>)
      requires Table(S) && b in S
      modifies this`dir, b`len
      ensures Table(S)
      ensures dir == if old(Live(dir, b)) && f(b.str, b.val) == -1 then old(dir) - {b.str} else old(dir)
    {
      if b.len != 0 {
        assert b.str[..b.len] == b.str;
        if f(b.str[..b.len], b.val) == -1 {
          Bury(b, S);
        }
      }
    }

    /** `cache_foreach`: calls back for every live record and buries those for which the callback says -1. */
    method Foreach(f: (Key, V) -> int)
      requires Valid()
      modifies this`dir, Records()`len
      ensures Valid()
      ensures forall k :: k in Contents() <==> k in old(Contents()) && f(k, old(Contents())[k]) != -1
      ensures forall k :: k in Contents() ==> k in old(Contents()) && Contents()[k] == old(Contents())[k]
    {
      hide Filled, Lengths, Words, Basket, IsPow2;
      var b := index;
      ghost var rest, D, m := entries, dir, Contents();
      ghost var S := Records();
      while b != null
        modifies this`dir, S`len
        invariant Table(S) && EntryChain(b, rest) && Elems(rest) <= S
        invariant dir == Surviving(D, m, f, rest)
        decreases |rest|
      {
        SurvivingNext(D, m, f, rest, dir, b.val);
        assert b in rest && forall e :: e in rest[1..] ==> e in rest;
        Visit(b, f, S);
        b := b.next;
        rest := rest[1..];
      }
      SurvivingAll(D, m, f);
    }

    /** `cache_sort`: permutes the entry list and nothing else. */
    method Sort(cmp: Comparator<V>, order: nat) returns (ok: bool)
      requires Valid() && |entries| < 0x8000_0000
      modifies this`index, this`entries, Records()`next
      ensures Valid() && ok == (order == ASC || order == DESC)
      ensures entries ==
        if ok then MergeSort.Sort(old(Chosen(cmp, order, Records())), old(entries), 1) else old(entries)
      ensures Contents() == old(Contents())
    {
      hide Layout, Filled, Held, Lengths, Words, Basket, IsPow2, EntryChain, Chosen;
      ok := order == ASC || order == DESC;
      if !ok {
        return;
      }
      ghost var take := Chosen(cmp, order, Records());
      SortElems(take, entries);
      index, entries := SortList(index, entries, cmp, order, take);
      SameContents();
    }
  }
}
