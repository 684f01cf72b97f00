/** The least-recently-used cache of enriched files, keyed by a hash of signal parameters. */
module SignalCache {
  import opened Wrappers

  /** The one path a key is ever stored under: `<key>.arrow`. */
  datatype Path<K> = CacheFile(stem: K)

  datatype File<D> = File(content: D, readable: bool, size: nat)

  /** A dictionary entry of the access times: its value, and its place in the dictionary. Keys
      keep the place of their insertion when they are updated. */
  datatype Access = Access(time: int, slot: nat)

  /** The order in which `min` over the dictionary picks: the least time, and of equal times the
      entry inserted first. */
  predicate Older(a: Access, b: Access) {
    a.time < b.time || (a.time == b.time && a.slot < b.slot)
  }

  predicate DistinctSlots<K(!new)>(times: map<K, Access>) {
    forall j, k | j in times && k in times && j != k :: times[j].slot != times[k].slot
  }

  /** Access times are of the past, and no two entries share a place. */
  predicate RecordedBy<K(!new)>(times: map<K, Access>, now: int, next: nat) {
    && (forall k | k in times :: times[k].time <= now && times[k].slot < next)
    && DistinctSlots(times)
  }

  lemma RecordedMeans<K(!new)>(times: map<K, Access>, now: int, next: nat)
    requires RecordedBy(times, now, next)
    ensures forall k | k in times :: times[k].time <= now && times[k].slot < next
  {
  }

  lemma RecordedLess<K(!new)>(times: map<K, Access>, now: int, next: nat, gone: set<K>)
    requires RecordedBy(times, now, next)
    ensures RecordedBy(times - gone, now, next)
  {
  }

  lemma RecordedUse<K(!new)>(times: map<K, Access>, now: int, next: nat, key: K, slot: nat)
    requires RecordedBy(times, now, next)
    requires if key in times then slot == times[key].slot else slot == next
    ensures RecordedBy(times[key := Access(now, slot)], now, if key in times then next else next + 1)
  {
  }

  // ----- eviction, on values -----

  /** Everything that went is older than everything that survives. */
  predicate LruEviction<K(!new)>(before: map<K, Access>, after: map<K, Access>) {
    && after.Keys <= before.Keys
    && (forall k | k in after :: after[k] == before[k])
    && (forall gone, kept | gone in before && gone !in after && kept in after :: Older(before[gone], before[kept]))
  }

  /** Once a recent key went, only other recent keys are left. */
  lemma {:induction false} EvictedFitsAll<K(!new)>(before: map<K, Access>, after: map<K, Access>, recent: set<K>, r: K)
    requires LruEviction(before, after)
    requires r in recent && r in before && r !in after
    requires forall k | k in before && k !in recent :: Older(before[k], before[r])
    ensures |after| < |recent|
  {
    forall kept | kept in after.Keys
      ensures kept in recent - {r}
    {
      assert Older(before[r], before[kept]);
    }
    SubsetSize(after.Keys, recent - {r});
  }

  /** Every key of the set was used after all keys outside it. */
  predicate Newer<K(!new)>(times: map<K, Access>, recent: set<K>) {
    recent <= times.Keys && forall r, k | r in recent && k in times && k !in recent :: Older(times[k], times[r])
  }

  /** Keys used more recently than all others survive any eviction that leaves at least
      that many entries. */
  lemma {:induction false} RecentSurvive<K(!new)>(before: map<K, Access>, after: map<K, Access>, recent: set<K>)
    requires LruEviction(before, after)
    requires Newer(before, recent)
    requires |after| >= |recent| || after == before
    ensures recent <= after.Keys
  {
    if after != before {
      forall r | r in recent
        ensures r in after
      {
        if r !in after {
          EvictedFitsAll(before, after, recent, r);
        }
      }
    }
  }

  lemma {:induction false} SubsetSize<T>(a: set<T>, b: set<T>)
    requires a <= b
    ensures |a| <= |b|
    ensures |a| == |b| ==> a == b
    decreases |a|
  {
    if |a| == 0 {
    } else {
      var x :| x in a;
      SubsetSize(a - {x}, b - {x});
      assert a == (a - {x}) + {x} && b == (b - {x}) + {x};
    }
  }

  /** The files of evicted keys left the disk, unless they are stuck, and nothing else on it
      changed. */
  ghost predicate OnlyEvicted<K(!new), D>(
    before: map<Path<K>, File<D>>, after: map<Path<K>, File<D>>, evicted: set<K>, stuck: set<K>)
  {
    && (forall p | p in after :: p in before && after[p] == before[p])
    && (forall p | p in before && p.stem !in evicted :: p in after)
    && (forall k | k in evicted && CacheFile(k) in after :: k in stuck)
  }

  /** From times and files to the later ones, all that happened is LRU eviction. */
  ghost predicate Evicts<K(!new), D>(
    times0: map<K, Access>, files0: map<Path<K>, File<D>>, times1: map<K, Access>, files1: map<Path<K>, File<D>>,
    stuck: set<K>)
  {
    LruEviction(times0, times1) && OnlyEvicted(files0, files1, times0.Keys - times1.Keys, stuck)
  }

  ghost function Size<K, D>(k: K, disk: map<Path<K>, File<D>>): nat {
    if CacheFile(k) in disk then disk[CacheFile(k)].size else 0
  }

  ghost function Pick<K>(keys: set<K>): (k: K)
    requires |keys| > 0
    ensures k in keys
  {
    var k :| k in keys;
    k
  }

  /** The bytes on disk of a set of keys. */
  ghost function Bytes<K, D>(keys: set<K>, disk: map<Path<K>, File<D>>): nat
    decreases |keys|
  {
    if |keys| == 0 then 0 else
      Size(Pick(keys), disk) + Bytes(keys - {Pick(keys)}, disk)
  }

  lemma {:induction false} BytesRemove<K, D>(keys: set<K>, k: K, disk: map<Path<K>, File<D>>)
    requires k in keys
    ensures Bytes(keys, disk) == Size(k, disk) + Bytes(keys - {k}, disk)
    decreases |keys|
  {
    hide Size, Pick;
    var first := Pick(keys);
    if first != k {
      BytesRemove(keys - {first}, k, disk);
      BytesRemove(keys - {k}, first, disk);
      assert keys - {first} - {k} == keys - {k} - {first};
    }
  }

  /** The byte total adds up the sizes of the files of these keys that exist. */
  lemma {:induction false} BytesMeans<K, D>(keys: set<K>, k: K, disk: map<Path<K>, File<D>>)
    requires k in keys
    ensures Bytes(keys, disk) ==
      (if CacheFile(k) in disk then disk[CacheFile(k)].size else 0) + Bytes(keys - {k}, disk)
    ensures Bytes({}, disk) == 0
  {
    BytesRemove(keys, k, disk);
  }

  lemma {:induction false} BytesFrame<K, D>(keys: set<K>, a: map<Path<K>, File<D>>, b: map<Path<K>, File<D>>)
    requires forall k | k in keys :: Size(k, a) == Size(k, b)
    ensures Bytes(keys, a) == Bytes(keys, b)
    decreases |keys|
  {
    if |keys| == 0 {
    } else {
      BytesFrame(keys - {Pick(keys)}, a, b);
    }
  }

  /** One entry less: its bytes leave the total, whether or not its file was unlinked. */
  lemma {:induction false} BytesAfterUnlink<K, D>(
    keys: set<K>, gone: K, before: map<Path<K>, File<D>>, after: map<Path<K>, File<D>>)
    requires gone in keys
    requires after == before || after == before - {CacheFile(gone)}
    ensures Bytes(keys, before) == Size(gone, before) + Bytes(keys - {gone}, after)
    ensures CacheFile(gone) in after ==> Size(gone, before) == after[CacheFile(gone)].size
  {
    BytesRemove(keys, gone, before);
    BytesFrame(keys - {gone}, before, after);
  }

  /** `SignalCacheManager`. Hashing, precomputation and the file sizes are parameters; the
      clock is a counter that never runs backwards. */
  class SignalCacheManager<P(!new), K(!new, ==), D(!new)> {
    const keyOf: P -> K
    const precompute: P -> Option<D>
    const sizeOf: D -> nat
    const isKey: K -> bool
    const maxEntries: nat
    const maxCacheBytes: int
    const parallelism: nat
    const strictClock: bool

    var index: map<K, Path<K>>
    var accessTimes: map<K, Access>
    /** The place of the next new entry of the access times. */
    var nextSlot: nat
    var hits: nat
    var misses: nat
    var errors: nat

    var disk: map<Path<K>, File<D>>
    var now: int
    /** Keys whose file the system refuses to unlink. */
    var stuck: set<K>
    /** How often the byte limit made the cache evict. */
    ghost var capHits: nat

    /** The two dictionaries have the same keys, and every path is the one of its key. */
    ghost predicate Valid()
      reads this
    {
      && index.Keys == accessTimes.Keys
      && (forall k | k in index :: index[k] == CacheFile(k))
      && Recorded()
      && Injective()
    }

    /** Access times are of the past, and no two entries share a place. */
    ghost predicate Recorded()
      reads this`accessTimes, this`now, this`nextSlot
    {
      RecordedBy(accessTimes, now, nextSlot)
    }

    predicate Usable(path: Path<K>)
      reads this`disk
    {
      path in disk && disk[path].readable
    }

    /** A readable file under a parameter set's key holds what recomputation would give. */
    ghost predicate Honest()
      reads this
    {
      HonestFiles(disk)
    }

    ghost predicate HonestFiles(files: map<Path<K>, File<D>>) {
      forall p | CacheFile(keyOf(p)) in files && files[CacheFile(keyOf(p))].readable ::
        precompute(p) == Some(files[CacheFile(keyOf(p))].content)
    }

    ghost predicate Injective() {
      forall p, q | keyOf(p) == keyOf(q) :: p == q
    }

    lemma HonestAfterStore(files: map<Path<K>, File<D>>, p: P)
      requires Injective() && HonestFiles(files) && precompute(p).Some?
      ensures HonestFiles(Stored(files, p))
    {
    }

    lemma HonestAfterEviction(
      times0: map<K, Access>, before: map<Path<K>, File<D>>, times1: map<K, Access>, after: map<Path<K>, File<D>>)
      requires HonestFiles(before) && Evicts(times0, before, times1, after, stuck)
      ensures HonestFiles(after)
    {
    }

    /** The entry of p can be read now and agrees with recomputation. */
    ghost predicate Live(p: P)
      reads this
    {
      && keyOf(p) in index
      && Usable(CacheFile(keyOf(p)))
      && precompute(p) == Some(disk[CacheFile(keyOf(p))].content)
    }

    /** Other processes may delete, corrupt, pad and lock files, and leave unreadable ones, but not
        forge readable content. */
    method Disturb()
      requires Valid() && Honest()
      modifies this`disk, this`stuck
      ensures Valid() && Honest()
    {
      var gone: set<Path<K>> := *;
      var sizes: map<Path<K>, nat> := *;
      var junk: map<Path<K>, File<D>> := *;
      var newStuck: set<K> := *;
      var left := map path | path in disk && path !in gone ::
        if path in sizes then disk[path].(size := sizes[path]) else disk[path];
      disk, stuck := left + (map path | path in junk :: junk[path].(readable := false)), newStuck;
    }

    method Clock() returns (t: int)
      modifies this`now
      ensures now == t >= old(now)
      ensures strictClock ==> t > old(now)
      ensures old(Recorded()) ==> Recorded()
    {
      ghost var before := now;
      var elapsed: int := *;
      now := now + if elapsed >= 1 then elapsed else if strictClock then 1 else 0;
      t := now;
      if RecordedBy(accessTimes, before, nextSlot) {
      }
    }

    /** `__init__`: whatever readable files of key shape are on disk become entries. */
    constructor (keyOf: P -> K, precompute: P -> Option<D>, sizeOf: D -> nat, isKey: K -> bool,
                 maxEntries: nat, maxCacheBytes: int, parallelism: nat, strictClock: bool,
                 disk: map<Path<K>, File<D>>, now: int)
      requires forall p, q | keyOf(p) == keyOf(q) :: p == q
      ensures Valid()
      ensures this.keyOf == keyOf && this.precompute == precompute && this.disk == disk
      ensures this.maxEntries == maxEntries && this.maxCacheBytes == maxCacheBytes
      ensures this.parallelism == parallelism && this.strictClock == strictClock
      ensures forall k :: k in index <==> isKey(k) && Usable(CacheFile(k))
      ensures hits == misses == errors == capHits == 0
    {
      this.keyOf, this.precompute, this.sizeOf, this.isKey := keyOf, precompute, sizeOf, isKey;
      this.maxEntries, this.maxCacheBytes, this.parallelism := maxEntries, maxCacheBytes, parallelism;
      this.strictClock, this.disk, this.now := strictClock, disk, now;
      index, accessTimes, nextSlot := map[], map[], 0;
      hits, misses, errors, stuck, capHits := 0, 0, 0, {}, 0;
      new;
      RebuildIndex();
    }

    /** The access times after key was used at time t. */
    function Used(times: map<K, Access>, key: K, t: int, next: nat): map<K, Access> {
      times[key := Access(t, if key in times then times[key].slot else next)]
    }

    lemma UsedKeys(times: map<K, Access>, key: K, t: int, next: nat)
      ensures Used(times, key, t, next).Keys == times.Keys + {key}
    {
    }

    /** `self._access_times[key] = t`. */
    method SetAccessTime(key: K, t: int)
      requires Recorded() && t == now
      modifies this`accessTimes, this`nextSlot
      ensures Recorded() && nextSlot >= old(nextSlot)
      ensures accessTimes == Used(old(accessTimes), key, t, old(nextSlot))
      ensures key in old(accessTimes) ==> nextSlot == old(nextSlot)
    {
      hide RecordedBy;
      RecordedUse(accessTimes, now, nextSlot, key, if key in accessTimes then accessTimes[key].slot else nextSlot);
      if key in accessTimes {
        accessTimes := accessTimes[key := Access(t, accessTimes[key].slot)];
      } else {
        accessTimes := accessTimes[key := Access(t, nextSlot)];
        nextSlot := nextSlot + 1;
      }
    }

    /** `_rebuild_index`: all rebuilt entries share one access time. */
    method RebuildIndex()
      requires Valid() && index == map[]
      modifies this`index, this`accessTimes, this`nextSlot, this`now
      ensures Valid()
      ensures forall k :: k in index <==> isKey(k) && Usable(CacheFile(k))
      ensures forall k | k in accessTimes :: accessTimes[k].time == now
    {
      hide Injective, RecordedBy;
      var baseTime := Clock();
      var rest := disk.Keys;
      while |rest| > 0
        invariant rest <= disk.Keys
        invariant Valid() && now == baseTime
        invariant forall k :: k in index <==> isKey(k) && Usable(CacheFile(k)) && CacheFile(k) !in rest
        invariant forall k | k in accessTimes :: accessTimes[k].time == baseTime
        decreases |rest|
      {
        var file :| file in rest;
        rest := rest - {file};
        if isKey(file.stem) && Usable(file) {
          index := index[file.stem := file];
          SetAccessTime(file.stem, baseTime);
        }
      }
    }

    /** `_evict_oldest`: the entry with the least access time goes, of several the one inserted
        first; unlinking may fail. */
    method EvictOldest() returns (evicted: Option<Path<K>>)
      requires Valid()
      modifies this`index, this`accessTimes, this`disk
      ensures Valid()
      ensures evicted.None? <==> old(|index|) == 0
      ensures evicted.None? ==> unchanged(this)
      ensures evicted.Some? ==>
        var k := evicted.value.stem;
        && evicted.value == CacheFile(k)
        && k in old(index) && index == old(index) - {k} && accessTimes == old(accessTimes) - {k}
        && (forall j | j in old(accessTimes) && j != k :: Older(old(accessTimes)[k], old(accessTimes)[j]))
        && disk == if k in stuck then old(disk) else old(disk) - {CacheFile(k)}
    {
      hide Injective, RecordedBy;
      if |accessTimes| == 0 {
        assert |index.Keys| == |accessTimes.Keys|;
        return None;
      }
      assert |index.Keys| == |accessTimes.Keys|;
      var oldest := OldestKey();
      var path := index[oldest];
      RecordedLess(accessTimes, now, nextSlot, {oldest});
      index, accessTimes := index - {oldest}, accessTimes - {oldest};
      if path in disk && oldest !in stuck {
        disk := disk - {path};
      }
      evicted := Some(path);
    }

    /** `min(access_times, key=access_times.get)`: the first entry, in dictionary order, of least
        time. */
    method OldestKey() returns (oldest: K)
      requires |accessTimes| > 0 && Recorded()
      ensures oldest in accessTimes
      ensures forall j | j in accessTimes && j != oldest :: Older(accessTimes[oldest], accessTimes[j])
    {
      assert |accessTimes.Keys| > 0;
      oldest :| oldest in accessTimes.Keys;
      var rest := accessTimes.Keys - {oldest};
      while |rest| > 0
        invariant rest <= accessTimes.Keys
        invariant oldest in accessTimes && oldest !in rest
        invariant forall j | j in accessTimes && j !in rest && j != oldest :: Older(accessTimes[oldest], accessTimes[j])
        decreases |rest|
      {
        var k :| k in rest;
        rest := rest - {k};
        if Older(accessTimes[k], accessTimes[oldest]) {
          oldest := k;
        }
      }
    }

    /** First loop of `_evict_if_needed`: the entry limit. */
    method EvictByCount()
      requires Valid()
      modifies this`index, this`accessTimes, this`disk
      ensures Valid()
      ensures Evicts(old(accessTimes), old(disk), accessTimes, disk, stuck)
      ensures |index| == Least(old(|index|), maxEntries) && index.Keys <= old(index.Keys)
    {
      hide Evicts, Injective, RecordedBy;
      EvictsNothing(accessTimes, disk, stuck);
      while |index| > maxEntries
        invariant Valid()
        invariant Evicts(old(accessTimes), old(disk), accessTimes, disk, stuck)
        invariant |index| >= Least(old(|index|), maxEntries)
        invariant |index| <= old(|index|) && index.Keys <= old(index.Keys)
        decreases |index|
      {
        ghost var times, files := accessTimes, disk;
        var evicted := EvictOldest();
        DropOne(index, evicted.value.stem, times.Keys);
        EvictsOneMore(old(accessTimes), old(disk), times, files, evicted.value.stem, accessTimes, disk, stuck);
      }
    }

    /** Second loop of `_evict_if_needed`: the byte limit. The size is read after the unlink, so
        the total only falls when the unlink failed; otherwise the loop runs down to one entry. */
    method EvictByBytes()
      requires Valid()
      modifies this`index, this`accessTimes, this`disk, this`capHits
      ensures Valid()
      ensures Evicts(old(accessTimes), old(disk), accessTimes, disk, stuck)
      ensures Bytes(index.Keys, disk) <= maxCacheBytes || |index| <= 1
      ensures old(|index|) >= 1 ==> |index| >= 1
      ensures capHits == old(capHits) + if ByteLimitBites(old(index), old(disk)) then 1 else 0
      ensures !ByteLimitBites(old(index), old(disk)) ==> unchanged(`index, `accessTimes, `disk)
      ensures ByteLimitBites(old(index), old(disk)) && stuck !! old(index.Keys) ==> |index| == 1
    {
      hide Evicts, Injective, RecordedBy;
      var totalBytes := TotalBytes();
      if totalBytes > maxCacheBytes && |index| > 1 {
        capHits := capHits + 1;
      }
      EvictWhileOver(totalBytes);
    }

    method EvictWhileOver(start: int)
      requires Valid() && start >= Bytes(index.Keys, disk)
      modifies this`index, this`accessTimes, this`disk
      ensures Valid()
      ensures Evicts(old(accessTimes), old(disk), accessTimes, disk, stuck)
      ensures Bytes(index.Keys, disk) <= maxCacheBytes || |index| <= 1
      ensures old(|index|) >= 1 ==> |index| >= 1
      ensures start <= maxCacheBytes || old(|index|) <= 1 ==> unchanged(this)
      ensures start > maxCacheBytes && stuck !! old(index.Keys) ==> |index| <= 1
    {
      hide Evicts, Size, Injective, RecordedBy;
      EvictsNothing(accessTimes, disk, stuck);
      var totalBytes := start;
      while totalBytes > maxCacheBytes && |index| > 1
        invariant Valid()
        invariant Evicts(old(accessTimes), old(disk), accessTimes, disk, stuck)
        invariant totalBytes >= Bytes(index.Keys, disk)
        invariant old(|index|) >= 1 ==> |index| >= 1
        invariant start <= maxCacheBytes || old(|index|) <= 1 ==> unchanged(this) && totalBytes == start
        invariant stuck !! old(index.Keys) ==> totalBytes == start && index.Keys <= old(index.Keys)
        decreases |index|
      {
        ghost var times, files, entries := accessTimes, disk, index.Keys;
        var evicted := EvictOldest();
        ghost var gone := evicted.value.stem;
        DropOne(index, gone, times.Keys);
        EvictsOneMore(old(accessTimes), old(disk), times, files, gone, accessTimes, disk, stuck);
        BytesAfterUnlink(entries, gone, files, disk);
        if evicted.Some? && evicted.value in disk {
          totalBytes := totalBytes - disk[evicted.value].size;
        }
      }
    }

    /** The byte total of the indexed files that exist. */
    method TotalBytes() returns (total: nat)
      requires Valid()
      ensures total == Bytes(index.Keys, disk)
    {
      total := 0;
      var rest := index.Keys;
      while |rest| > 0
        invariant rest <= index.Keys
        invariant total + Bytes(rest, disk) == Bytes(index.Keys, disk)
        decreases |rest|
      {
        var k :| k in rest;
        BytesRemove(rest, k, disk);
        rest := rest - {k};
        if index[k] in disk {
          total := total + disk[index[k]].size;
        }
      }
    }

    ghost predicate ByteLimitBites(entries: map<K, Path<K>>, files: map<Path<K>, File<D>>) {
      Bytes(entries.Keys, files) > maxCacheBytes && |entries| > 1
    }

    /** `_evict_if_needed`. */
    method EvictIfNeeded()
      requires Valid()
      modifies this`index, this`accessTimes, this`disk, this`capHits
      ensures Valid()
      ensures Evicts(old(accessTimes), old(disk), accessTimes, disk, stuck)
      ensures |index| <= maxEntries
      ensures |index| >= Least(old(|index|), Least(maxEntries, 1))
      ensures Bytes(index.Keys, disk) <= maxCacheBytes || |index| <= 1
      ensures capHits >= old(capHits)
      ensures capHits == old(capHits) ==> |index| == Least(old(|index|), maxEntries)
      ensures capHits > old(capHits) && stuck !! old(index.Keys) ==> |index| == 1
    {
      hide Evicts, Injective, ByteLimitBites, RecordedBy;
      EvictByCount();
      ghost var times, files := accessTimes, disk;
      EvictByBytes();
      EvictsTransitive(old(accessTimes), old(disk), times, files, accessTimes, disk, stuck);
      FewerKeys(index, times);
    }

    /** The check both entry points start with: a missing or corrupt entry is forgotten. */
    method Lookup(key: K) returns (hit: bool)
      requires Valid()
      modifies this`index, this`accessTimes, this`nextSlot, this`hits, this`misses, this`now
      ensures Valid() && now >= old(now) && nextSlot == old(nextSlot)
      ensures hit <==> key in old(index) && Usable(CacheFile(key))
      ensures hit ==> index == old(index) && accessTimes == Used(old(accessTimes), key, now, nextSlot)
      ensures hit && strictClock ==> now > old(now)
      ensures !hit ==> index == old(index) - {key} && accessTimes == old(accessTimes) - {key} && now == old(now)
      ensures hits == old(hits) + (if hit then 1 else 0) && misses == old(misses) + (if hit then 0 else 1)
    {
      hide RecordedBy, Injective;
      if key in index {
        var cachedPath := index[key];
        if Usable(cachedPath) {
          var t := Clock();
          SetAccessTime(key, t);
          hits := hits + 1;
          return true;
        }
        RecordedLess(accessTimes, now, nextSlot, {key});
        index, accessTimes := index - {key}, accessTimes - {key};
      }
      misses := misses + 1;
      hit := false;
    }

    /** `_compute_and_store`: atomic replacement, index update, eviction; on failure only the
        error count moves. */
    method ComputeAndStore(p: P) returns (path: Option<Path<K>>)
      requires Valid() && Honest()
      modifies this`index, this`accessTimes, this`nextSlot, this`disk, this`now, this`errors, this`capHits
      ensures Valid() && Honest()
      ensures path == if precompute(p).None? then None else Some(CacheFile(keyOf(p)))
      ensures path.None? ==> errors == old(errors) + 1
      ensures path.None? ==> unchanged(`index, `accessTimes, `nextSlot, `disk, `now, `capHits)
      ensures path.Some? ==>
        && errors == old(errors) && now >= old(now) && (strictClock ==> now > old(now))
        && Evicts(Used(old(accessTimes), keyOf(p), now, old(nextSlot)), Stored(old(disk), p), accessTimes, disk, stuck)
        && |index| <= maxEntries && (maxEntries >= 1 ==> |index| >= 1)
        && (Bytes(index.Keys, disk) <= maxCacheBytes || |index| <= 1)
        && capHits >= old(capHits)
        && (capHits == old(capHits) ==>
              |index| == Least(|Used(old(accessTimes), keyOf(p), now, old(nextSlot))|, maxEntries))
        && accessTimes.Keys <= old(accessTimes).Keys + {keyOf(p)}
        && (keyOf(p) !in old(accessTimes) ==> (Live(p) <==> maxEntries >= 1))
    {
      hide Evicts, HonestFiles, Injective, RecordedBy, Stored, Used, Live;
      if precompute(p).None? {
        errors := errors + 1;
        return None;
      }
      StoreAndEvict(p, precompute(p).value);
      path := Some(CacheFile(keyOf(p)));
    }

    method StoreAndEvict(p: P, data: D)
      requires Valid() && Honest() && precompute(p) == Some(data)
      modifies this`index, this`accessTimes, this`nextSlot, this`disk, this`now, this`capHits
      ensures Valid() && Honest()
      ensures now >= old(now) && (strictClock ==> now > old(now))
      ensures Evicts(
        Used(old(accessTimes), keyOf(p), now, old(nextSlot)), Stored(old(disk), p), accessTimes, disk, stuck)
      ensures |index| <= maxEntries && (maxEntries >= 1 ==> |index| >= 1)
      ensures Bytes(index.Keys, disk) <= maxCacheBytes || |index| <= 1
      ensures capHits >= old(capHits)
      ensures capHits == old(capHits) ==>
        |index| == Least(|Used(old(accessTimes), keyOf(p), now, old(nextSlot))|, maxEntries)
      ensures accessTimes.Keys <= old(accessTimes).Keys + {keyOf(p)}
      ensures keyOf(p) !in old(accessTimes) ==> (Live(p) <==> maxEntries >= 1)
    {
      hide Evicts, HonestFiles, Injective, Stored, RecordedBy, Used;
      RecordedMeans(accessTimes, now, nextSlot);
      ghost var was, files0, next := accessTimes, disk, nextSlot;
      Store(p, data);
      ghost var times, files := accessTimes, disk;
      EvictIfNeeded();
      HonestAfterEviction(times, files, accessTimes, disk);
      EvictsShrinks(times, files, accessTimes, disk, stuck);
      UsedKeys(was, keyOf(p), now, next);
      if keyOf(p) !in was && maxEntries >= 1 {
        JustStoredIsLive(was, files0, next, p);
      }
    }

    /** The atomic rename and the index update. */
    method Store(p: P, data: D)
      requires Valid() && Honest() && precompute(p) == Some(data)
      modifies this`index, this`accessTimes, this`nextSlot, this`disk, this`now
      ensures Valid() && Honest()
      ensures disk == Stored(old(disk), p)
      ensures index == old(index)[keyOf(p) := CacheFile(keyOf(p))]
      ensures accessTimes == Used(old(accessTimes), keyOf(p), now, old(nextSlot))
      ensures |index| == |accessTimes|
      ensures now >= old(now) && (strictClock ==> now > old(now))
    {
      hide HonestFiles, RecordedBy, Injective;
      var key := keyOf(p);
      HonestAfterStore(disk, p);
      disk := disk[CacheFile(key) := File(data, true, sizeOf(data))];
      index := index[key := CacheFile(key)];
      var t := Clock();
      SetAccessTime(key, t);
      assert index.Keys == accessTimes.Keys;
      KeysSize(index, accessTimes);
    }

    /** The disk with p's file just written. */
    ghost function Stored(files: map<Path<K>, File<D>>, p: P): map<Path<K>, File<D>>
      requires precompute(p).Some?
    {
      files[CacheFile(keyOf(p)) := File(precompute(p).value, true, sizeOf(precompute(p).value))]
    }

    /** If the eviction after a store leaves the file, it is the one just written, with its size. */
    lemma StoredFile(
      times: map<K, Access>, before: map<Path<K>, File<D>>, p: P, after: map<K, Access>, files: map<Path<K>, File<D>>)
      requires precompute(p).Some? && Evicts(times, Stored(before, p), after, files, stuck)
      ensures CacheFile(keyOf(p)) in files ==>
        files[CacheFile(keyOf(p))] == File(precompute(p).value, true, sizeOf(precompute(p).value))
    {
    }

    /** A new entry is the newest, whatever the clock does, and so is live after the eviction
        that follows. */
    lemma {:induction false} JustStoredIsLive(
      times: map<K, Access>, files: map<Path<K>, File<D>>, next: nat, p: P)
      requires Valid() && precompute(p).Some? && |index| >= 1 && keyOf(p) !in times
      requires Evicts(Used(times, keyOf(p), now, next), Stored(files, p), accessTimes, disk, stuck)
      requires forall k | k in times :: times[k].time <= now && times[k].slot < next
      ensures Live(p)
    {
      KeysSize(index, accessTimes);
      NewestSurvives(Used(times, keyOf(p), now, next), accessTimes, keyOf(p));
    }

    lemma UsableIsLive(p: P)
      requires Honest() && keyOf(p) in index && Usable(CacheFile(keyOf(p)))
      ensures Live(p) && precompute(p).Some?
    {
    }

    /** `get_or_compute`. It raises exactly when recomputation would; whatever file stands under
        the returned path agrees with recomputation; and the entry just asked for is live exactly
        if it was found or the cache may hold any entry. What else happens is one LRU eviction
        after the new entry. */
    method GetOrCompute(p: P) returns (path: Option<Path<K>>)
      requires Valid() && Honest()
      modifies this`index, this`accessTimes, this`nextSlot, this`disk, this`now
      modifies this`hits, this`misses, this`errors, this`capHits
      ensures Valid() && Honest() && now >= old(now)
      ensures path == if precompute(p).None? then None else Some(CacheFile(keyOf(p)))
      ensures hits + misses == old(hits) + old(misses) + 1 && old(hits) <= hits <= old(hits) + 1
      ensures hits > old(hits) <==> keyOf(p) in old(index) && old(Usable(CacheFile(keyOf(p))))
      ensures hits > old(hits) ==>
        && path.Some? && disk == old(disk) && index == old(index) && capHits == old(capHits)
        && accessTimes == Used(old(accessTimes), keyOf(p), now, old(nextSlot)) && (strictClock ==> now > old(now))
      ensures path.Some? ==> (Live(p) <==> hits > old(hits) || maxEntries >= 1)
      ensures path.Some? && hits == old(hits) ==>
        && Evicts(
          Used(old(accessTimes) - {keyOf(p)}, keyOf(p), now, old(nextSlot)), Stored(old(disk), p), accessTimes, disk,
          stuck)
        && |index| <= maxEntries && (Bytes(index.Keys, disk) <= maxCacheBytes || |index| <= 1)
        && (capHits == old(capHits) ==>
              |index| == Least(|Used(old(accessTimes) - {keyOf(p)}, keyOf(p), now, old(nextSlot))|, maxEntries))
      ensures capHits >= old(capHits)
      ensures errors == old(errors) + if path.None? then 1 else 0
    {
      hide Evicts, HonestFiles, Injective, RecordedBy, Stored, Used, Live;
      var key := keyOf(p);
      var hit := Lookup(key);
      if hit {
        UsableIsLive(p);
        return Some(index[key]);
      }
      path := ComputeAndStore(p);
    }

    /** Any number of calls, with others at work on the disk in between: every call raises exactly
        when recomputation would, the dictionaries stay in step, and whatever can be read under
        a path is what recomputation gives. */
    method Serve(requests: seq<P>) returns (answers: seq<Option<Path<K>>>)
      requires Valid() && Honest()
      modifies this`index, this`accessTimes, this`nextSlot, this`disk, this`now, this`stuck
      modifies this`hits, this`misses, this`errors, this`capHits
      ensures Valid() && Honest()
      ensures |answers| == |requests|
      ensures forall i | 0 <= i < |requests| ::
        answers[i] == if precompute(requests[i]).None? then None else Some(CacheFile(keyOf(requests[i])))
      ensures hits + misses == old(hits) + old(misses) + |requests|
    {
      hide Valid, HonestFiles, Evicts, Stored, Used, Live;
      answers := [];
      for i := 0 to |requests|
        invariant Valid() && Honest()
        invariant |answers| == i && hits + misses == old(hits) + old(misses) + i
        invariant forall j | 0 <= j < i ::
          answers[j] == if precompute(requests[j]).None? then None else Some(CacheFile(keyOf(requests[j])))
      {
        Disturb();
        var path := GetOrCompute(requests[i]);
        answers := answers + [path];
      }
      Disturb();
    }

    // ----- batches -----

    ghost function Keys(sets: seq<P>): set<K> {
      set p | p in sets :: keyOf(p)
    }

    /** First occurrence of every key, in order. */
    method Deduplicate(sets: seq<P>) returns (unique: seq<P>)
      requires Valid()
      ensures forall p :: p in unique <==> p in sets
      ensures Keys(unique) == Keys(sets) && |unique| == |Keys(sets)|
    {
      unique := [];
      var seen: set<K> := {};
      for i := 0 to |sets|
        invariant forall p | p in unique :: p in sets
        invariant seen == Keys(unique) == Keys(sets[..i]) && |seen| == |unique|
      {
        KeysSnoc(sets[..i], sets[i]);
        assert sets[..i] + [sets[i]] == sets[..i + 1];
        if keyOf(sets[i]) !in seen {
          KeysSnoc(unique, sets[i]);
          unique := unique + [sets[i]];
        }
        seen := seen + {keyOf(sets[i])};
      }
      assert sets[..|sets|] == sets;
      forall p | p in sets
        ensures p in unique
      {
        assert keyOf(p) in Keys(unique);
      }
    }

    lemma KeysEmpty(sets: seq<P>)
      requires |sets| == 0
      ensures Keys(sets) == {}
    {
    }

    lemma KeysSnoc(sets: seq<P>, p: P)
      ensures Keys(sets + [p]) == Keys(sets) + {keyOf(p)}
    {
    }

    /** What was asked for so far is readable and was used after everything else. */
    ghost predicate Touched(touched: set<K>)
      reads this
    {
      TouchedIn(accessTimes, disk, touched)
    }

    ghost predicate TouchedIn(times: map<K, Access>, files: map<Path<K>, File<D>>, touched: set<K>) {
      Newer(times, touched) && forall k | k in touched :: CacheFile(k) in files && files[CacheFile(k)].readable
    }

    lemma NothingTouched()
      ensures Touched({})
    {
    }

    /** Using a key at a time after all others' makes it one of the newest. */
    lemma TouchedAfterUse(
      times: map<K, Access>, files: map<Path<K>, File<D>>, touched: set<K>, key: K, t: int, next: nat)
      requires TouchedIn(times, files, touched)
      requires forall k | k in times ::
        times[k].time < t || (times[k].time == t && times[k].slot < next && key !in times)
      requires CacheFile(key) in files && files[CacheFile(key)].readable
      ensures TouchedIn(Used(times, key, t, next), files, touched + {key})
    {
    }

    lemma TouchedAfterMiss(
      times: map<K, Access>, files: map<Path<K>, File<D>>, touched: set<K>, key: K)
      requires TouchedIn(times, files, touched) && key !in touched
      ensures TouchedIn(times - {key}, files, touched)
    {
    }

    /** One new entry more, with room for all of them, evicts no touched key. */
    lemma {:induction false} TouchedAfterStore(
      times: map<K, Access>, files: map<Path<K>, File<D>>, next: nat, touched: set<K>, p: P)
      requires Valid() && precompute(p).Some? && keyOf(p) !in times
      requires forall k | k in times :: times[k].time <= now && times[k].slot < next
      requires TouchedIn(times, files, touched)
      requires Evicts(Used(times, keyOf(p), now, next), Stored(files, p), accessTimes, disk, stuck)
      requires |touched + {keyOf(p)}| <= maxEntries
      requires |index| == Least(|Used(times, keyOf(p), now, next)|, maxEntries)
      ensures Touched(touched + {keyOf(p)})
    {
      hide Used, Evicts;
      var before, recent := Used(times, keyOf(p), now, next), touched + {keyOf(p)};
      TouchedAfterUse(times, Stored(files, p), touched, keyOf(p), now, next);
      KeysSize(index, accessTimes);
      TouchedSurvive(before, accessTimes, Stored(files, p), disk, recent);
    }

    /** An eviction with room for the touched keys keeps them, and nothing else is as recent. */
    lemma {:induction false} TouchedSurvive(
      before: map<K, Access>, after: map<K, Access>, files: map<Path<K>, File<D>>, left: map<Path<K>, File<D>>,
      recent: set<K>)
      requires TouchedIn(before, files, recent) && |recent| <= maxEntries
      requires Evicts(before, files, after, left, stuck) && |after| == Least(|before|, maxEntries)
      ensures TouchedIn(after, left, recent)
    {
      if |after| == |before| {
        SameSizeSame(before, after);
      }
      RecentSurvive(before, after, recent);
    }

    /** One check of a batch, and its result entry. */
    method CheckOne(p: P, found: map<K, Path<K>>) returns (hit: bool, more: map<K, Path<K>>)
      requires Valid() && Honest() && keyOf(p) !in found
      modifies this`index, this`accessTimes, this`nextSlot, this`hits, this`misses, this`now
      ensures Valid() && now >= old(now)
      ensures hit ==> precompute(p).Some?
      ensures !hit ==> keyOf(p) !in accessTimes
      ensures Honest() && accessTimes.Keys <= old(accessTimes).Keys
      ensures more == if hit then found[keyOf(p) := CacheFile(keyOf(p))] else found
      ensures hits == old(hits) + (if hit then 1 else 0) && misses == old(misses) + (if hit then 0 else 1)
      ensures (strictClock || !hit) && old(Touched(found.Keys)) ==> Touched(more.Keys)
    {
      hide HonestFiles, TouchedIn, Injective;
      var key := keyOf(p);
      ghost var times, next := accessTimes, nextSlot;
      hit := Lookup(key);
      if hit {
        UsableIsLive(p);
        more := found[key := index[key]];
        assert more.Keys == found.Keys + {key};
        if strictClock && TouchedIn(times, disk, found.Keys) {
          TouchedAfterUse(times, disk, found.Keys, key, now, next);
        }
      } else {
        more := found;
        if TouchedIn(times, disk, found.Keys) {
          TouchedAfterMiss(times, disk, found.Keys, key);
        }
      }
    }

    /** The checking pass over the distinct parameter sets. */
    method CheckBatch(unique: seq<P>) returns (found: map<K, Path<K>>, missing: seq<P>)
      requires Valid() && Honest()
      requires |unique| == |Keys(unique)|
      modifies this`index, this`accessTimes, this`nextSlot, this`hits, this`misses, this`now
      ensures Valid() && now >= old(now)
      ensures found.Keys + Keys(missing) == Keys(unique)
      ensures hits + misses == old(hits) + old(misses) + |unique| && misses == old(misses) + |missing|
      ensures forall p | p in missing :: p in unique
      ensures forall k | k in found :: found[k] == CacheFile(k)
      ensures forall p | p in unique && precompute(p).None? :: p in missing
      ensures |missing| == |Keys(missing)| && Keys(missing) !! accessTimes.Keys
      ensures strictClock || hits == old(hits) ==> Touched(found.Keys)
    {
      hide Honest, Touched, Valid, Keys, Checked, Fresh;
      NothingTouched();
      found, missing := map[], [];
      assert found.Keys == {};
      CheckedStart(unique[..0], found, missing, accessTimes.Keys);
      for i := 0 to |unique|
        invariant Valid() && Honest() && now >= old(now)
        invariant Checked(unique[..i], found, missing) && Fresh(missing, accessTimes.Keys)
        invariant hits + misses == old(hits) + old(misses) + i && misses == old(misses) + |missing|
        invariant hits >= old(hits) && (strictClock || hits == old(hits) ==> Touched(found.Keys))
      {
        var p := unique[i];
        assert unique[..i + 1] == unique[..i] + [p];
        NextIsNew(unique, i);
        CheckedStep(unique[..i], p, found, missing);
        ghost var before := accessTimes.Keys;
        var hit: bool;
        hit, found := CheckOne(p, found);
        FreshStep(missing, p, before, accessTimes.Keys);
        if !hit {
          missing := missing + [p];
        }
      }
      assert unique[..|unique|] == unique;
      CheckedEnd(unique, found, missing, accessTimes.Keys);
    }

    /** The missing sets have distinct keys, none of which is in the cache. */
    ghost predicate Fresh(missing: seq<P>, cached: set<K>) {
      |missing| == |Keys(missing)| && Keys(missing) !! cached
    }

    lemma {:induction false} FreshStep(missing: seq<P>, p: P, before: set<K>, cached: set<K>)
      requires Fresh(missing, before) && cached <= before
      ensures Fresh(missing, cached)
      ensures keyOf(p) !in Keys(missing) && keyOf(p) !in cached ==> Fresh(missing + [p], cached)
    {
      hide Keys;
      KeysSnoc(missing, p);
      AddSize(Keys(missing), keyOf(p));
    }

    /** The parameter sets checked so far are split into found and missing ones. */
    ghost predicate Checked(seen: seq<P>, found: map<K, Path<K>>, missing: seq<P>) {
      && found.Keys + Keys(missing) == Keys(seen)
      && (forall p | p in missing :: p in seen)
      && (forall k | k in found :: found[k] == CacheFile(k))
      && (forall p | p in seen && precompute(p).None? :: p in missing)
    }

    lemma CheckedStart(seen: seq<P>, found: map<K, Path<K>>, missing: seq<P>, cached: set<K>)
      requires |seen| == |missing| == 0 && found.Keys == {}
      ensures Checked(seen, found, missing) && Fresh(missing, cached)
    {
    }

    lemma {:induction false} CheckedStep(seen: seq<P>, p: P, found: map<K, Path<K>>, missing: seq<P>)
      requires Checked(seen, found, missing)
      requires keyOf(p) !in Keys(seen)
      ensures keyOf(p) !in found && keyOf(p) !in Keys(missing)
      ensures precompute(p).Some? ==> Checked(seen + [p], found[keyOf(p) := CacheFile(keyOf(p))], missing)
      ensures Checked(seen + [p], found, missing + [p])
    {
      hide Keys;
      KeysSnoc(seen, p);
      KeysSnoc(missing, p);
      Regroup(found.Keys, Keys(missing), keyOf(p));
      assert found[keyOf(p) := CacheFile(keyOf(p))].Keys == found.Keys + {keyOf(p)};
    }

    lemma CheckedEnd(seen: seq<P>, found: map<K, Path<K>>, missing: seq<P>, cached: set<K>)
      requires Checked(seen, found, missing) && Fresh(missing, cached)
      ensures |missing| == |Keys(missing)| && Keys(missing) !! cached
      ensures found.Keys + Keys(missing) == Keys(seen)
      ensures forall p | p in missing :: p in seen
      ensures forall k | k in found :: found[k] == CacheFile(k)
      ensures forall p | p in seen && precompute(p).None? :: p in missing
    {
    }

    /** Without repeated keys, the next key was not seen before. */
    lemma {:induction false} NextIsNew(unique: seq<P>, i: nat)
      requires i < |unique| == |Keys(unique)|
      ensures keyOf(unique[i]) !in Keys(unique[..i])
      ensures |Keys(unique[..i])| == i
    {
      PrefixKeys(unique, i);
      PrefixKeys(unique, i + 1);
      assert unique[..i + 1] == unique[..i] + [unique[i]];
      KeysSnoc(unique[..i], unique[i]);
    }

    lemma {:induction false} PrefixKeys(unique: seq<P>, i: nat)
      requires i <= |unique| == |Keys(unique)|
      ensures |Keys(unique[..i])| == i
    {
      AtMostOneKeyEach(unique[..i]);
      AtMostOneKeyEach(unique[i..]);
      assert unique == unique[..i] + unique[i..];
      assert Keys(unique) == Keys(unique[..i]) + Keys(unique[i..]);
    }

    lemma {:induction false} AtMostOneKeyEach(sets: seq<P>)
      ensures |Keys(sets)| <= |sets|
    {
      if |sets| == 0 {
      } else {
        var init := sets[..|sets| - 1];
        AtMostOneKeyEach(init);
        assert init + [sets[|sets| - 1]] == sets;
        KeysSnoc(init, sets[|sets| - 1]);
      }
    }

    lemma RemoveAt(sets: seq<P>, i: nat)
      requires i < |sets|
      ensures var rest := sets[..i] + sets[i + 1..];
        && Keys(sets) == Keys(rest) + {keyOf(sets[i])}
        && (forall p :: p in sets <==> p in rest || p == sets[i])
    {
    }

    /** Of sets with distinct keys, the others do not have the key taken out. */
    lemma {:induction false} RemoveDistinct(sets: seq<P>, i: nat)
      requires i < |sets| == |Keys(sets)|
      ensures var rest := sets[..i] + sets[i + 1..];
        keyOf(sets[i]) !in Keys(rest) && |rest| == |Keys(rest)|
    {
      hide Keys;
      var rest := sets[..i] + sets[i + 1..];
      RemoveAt(sets, i);
      AtMostOneKeyEach(rest);
      AddSize(Keys(rest), keyOf(sets[i]));
    }

    /** One computation of a batch, and its result entry. */
    method ComputeInto(p: P, paths: map<K, Path<K>>) returns (ok: bool, more: map<K, Path<K>>)
      requires Valid() && Honest() && keyOf(p) !in accessTimes
      modifies this`index, this`accessTimes, this`nextSlot, this`disk, this`now, this`errors, this`capHits
      ensures Valid() && Honest() && capHits >= old(capHits)
      ensures ok <==> precompute(p).Some?
      ensures more == if ok then paths[keyOf(p) := CacheFile(keyOf(p))] else paths
      ensures ok ==> |index| <= maxEntries
      ensures accessTimes.Keys <= old(accessTimes).Keys + {keyOf(p)}
      ensures (ok && capHits == old(capHits) && |paths.Keys + {keyOf(p)}| <= maxEntries
        && old(Touched(paths.Keys))) ==> Touched(more.Keys)
    {
      hide Evicts, HonestFiles, TouchedIn, Injective, Stored, Used;
      ghost var times, files, next, caps := accessTimes, disk, nextSlot, capHits;
      var path := ComputeAndStore(p);
      if path.None? {
        return false, paths;
      }
      if capHits == caps && |paths.Keys + {keyOf(p)}| <= maxEntries && TouchedIn(times, files, paths.Keys) {
        TouchedAfterStore(times, files, next, paths.Keys, p);
      }
      ok, more := true, paths[keyOf(p) := path.value];
      assert more.Keys == paths.Keys + {keyOf(p)};
    }

    /** What is computed so far and what is left make up the batch. */
    ghost predicate Progress(
      missing: seq<P>, found: map<K, Path<K>>, rest: seq<P>, paths: map<K, Path<K>>, failed: bool)
    {
      && (forall p | p in rest :: p in missing)
      && (failed ==> exists p :: p in missing && precompute(p).None?)
      && (!failed ==> forall p | p in missing :: p in rest || precompute(p).Some?)
      && paths.Keys <= found.Keys + Keys(missing) && Keys(rest) <= Keys(missing)
      && (!failed ==> paths.Keys + Keys(rest) == found.Keys + Keys(missing))
      && (forall k | k in paths :: paths[k] == CacheFile(k))
    }

    lemma ProgressStart(missing: seq<P>, found: map<K, Path<K>>)
      requires forall k | k in found :: found[k] == CacheFile(k)
      ensures Progress(missing, found, missing, found, false)
    {
    }

    lemma {:induction false} ProgressStep(
      missing: seq<P>, found: map<K, Path<K>>, rest: seq<P>, i: nat, paths: map<K, Path<K>>, failed: bool)
      requires i < |rest| && Progress(missing, found, rest, paths, failed)
      ensures var p, left := rest[i], rest[..i] + rest[i + 1..];
        && (if precompute(p).Some? then Progress(missing, found, left, paths[keyOf(p) := CacheFile(keyOf(p))], failed)
            else p in missing && Progress(missing, found, left, paths, true))
        && |paths.Keys + {keyOf(p)}| <= |found.Keys + Keys(missing)|
    {
      hide Keys, Progress;
      var p, left := rest[i], rest[..i] + rest[i + 1..];
      RemoveAt(rest, i);
      ProgressMeans(missing, found, rest, p, paths, failed);
      if precompute(p).Some? {
        ProgressComputed(missing, found, rest, p, left, paths, failed);
      } else {
        ProgressFailed(missing, found, rest, p, left, paths, failed);
      }
    }

    lemma {:induction false} ProgressMeans(
      missing: seq<P>, found: map<K, Path<K>>, rest: seq<P>, p: P, paths: map<K, Path<K>>, failed: bool)
      requires Progress(missing, found, rest, paths, failed) && p in rest && keyOf(p) in Keys(rest)
      ensures p in missing && |paths.Keys + {keyOf(p)}| <= |found.Keys + Keys(missing)|
    {
      hide Keys;
      SubsetSize(paths.Keys + {keyOf(p)}, found.Keys + Keys(missing));
    }

    lemma ProgressComputed(
      missing: seq<P>, found: map<K, Path<K>>, rest: seq<P>, p: P, left: seq<P>, paths: map<K, Path<K>>, failed: bool)
      requires Progress(missing, found, rest, paths, failed) && precompute(p).Some?
      requires Keys(rest) == Keys(left) + {keyOf(p)} && forall q :: q in rest <==> q in left || q == p
      ensures Progress(missing, found, left, paths[keyOf(p) := CacheFile(keyOf(p))], failed)
    {
    }

    lemma ProgressFailed(
      missing: seq<P>, found: map<K, Path<K>>, rest: seq<P>, p: P, left: seq<P>, paths: map<K, Path<K>>, failed: bool)
      requires Progress(missing, found, rest, paths, failed) && precompute(p).None? && p in missing
      requires Keys(rest) == Keys(left) + {keyOf(p)} && forall q :: q in rest <==> q in left || q == p
      ensures Progress(missing, found, left, paths, true)
    {
    }

    lemma ProgressEnd(
      missing: seq<P>, found: map<K, Path<K>>, rest: seq<P>, paths: map<K, Path<K>>, failed: bool)
      requires |rest| == 0 && Progress(missing, found, rest, paths, failed)
      ensures failed <==> exists p :: p in missing && precompute(p).None?
      ensures !failed ==> paths.Keys == found.Keys + Keys(missing) && forall k | k in paths :: paths[k] == CacheFile(k)
    {
    }

    /** The computing pass: in order and stopping at the first failure without a pool, in any
        order and to the end with one. */
    method ComputeMissing(missing: seq<P>, found: map<K, Path<K>>, pool: bool)
      returns (result: Option<map<K, Path<K>>>)
      requires Valid() && Honest() && |missing| > 0
      requires |missing| == |Keys(missing)| && Keys(missing) !! accessTimes.Keys
      requires forall k | k in found :: found[k] == CacheFile(k)
      modifies this`index, this`accessTimes, this`nextSlot, this`disk, this`now, this`errors, this`capHits
      ensures Valid() && Honest() && capHits >= old(capHits)
      ensures result.Some? <==> forall p | p in missing :: precompute(p).Some?
      ensures result.Some? ==> result.value.Keys == found.Keys + Keys(missing)
      ensures result.Some? ==> forall k | k in result.value :: result.value[k] == CacheFile(k)
      ensures result.Some? ==> |index| <= maxEntries
      ensures (result.Some? && |found.Keys + Keys(missing)| <= maxEntries && capHits == old(capHits)
        && old(Touched(found.Keys))) ==> Touched(result.value.Keys)
    {
      hide Evicts, HonestFiles, Touched, Injective, RecordedBy, Stored, Keys, Progress;
      var paths, rest, failed := found, missing, false;
      ProgressStart(missing, found);
      ghost var room := |found.Keys + Keys(missing)| <= maxEntries && Touched(found.Keys);
      while |rest| > 0
        invariant Valid() && Honest() && capHits >= old(capHits)
        invariant Progress(missing, found, rest, paths, failed)
        invariant |rest| == |Keys(rest)| && Keys(rest) !! accessTimes.Keys
        invariant |rest| < |missing| && !failed ==> |index| <= maxEntries
        invariant !failed && room && capHits == old(capHits) ==> Touched(paths.Keys)
        decreases |rest|
      {
        var i: nat := 0;
        if pool {
          i :| i < |rest|;
        }
        var p := rest[i];
        ProgressStep(missing, found, rest, i, paths, failed);
        RemoveAt(rest, i);
        RemoveDistinct(rest, i);
        rest := rest[..i] + rest[i + 1..];
        var ok: bool;
        ok, paths := ComputeInto(p, paths);
        if !ok {
          if !pool {
            return None;
          }
          failed := true;
        }
      }
      ProgressEnd(missing, found, rest, paths, failed);
      if failed {
        errors := errors + 1;
        return None;
      }
      result := Some(paths);
    }

    lemma AllLive(sets: seq<P>)
      requires Valid() && Honest() && Touched(Keys(sets))
      ensures forall p | p in sets :: Live(p)
    {
    }

    /** `get_or_compute_batch`. Pool completions may come in any order, and with a pool the
        remaining work is finished before a failure is raised. The call raises exactly when one
        of the recomputations would. A batch of at most max_entries distinct keys that never
        meets the byte limit leaves every entry it returns live, if the clock advances or nothing
        of it was found. */
    method GetOrComputeBatch(sets: seq<P>) returns (result: Option<map<K, Path<K>>>)
      requires Valid() && Honest()
      modifies this`index, this`accessTimes, this`nextSlot, this`disk, this`now
      modifies this`hits, this`misses, this`errors, this`capHits
      ensures Valid() && Honest()
      ensures result.Some? <==> forall p | p in sets :: precompute(p).Some?
      ensures result.Some? ==> result.value.Keys == Keys(sets)
      ensures result.Some? ==> forall k | k in result.value :: result.value[k] == CacheFile(k)
      ensures hits + misses == old(hits) + old(misses) + |Keys(sets)|
      ensures result.Some? && misses > old(misses) ==> |index| <= maxEntries
      ensures (result.Some? && (strictClock || hits == old(hits)) && |Keys(sets)| <= maxEntries
        && capHits == old(capHits)) ==> forall p | p in sets :: Live(p)
    {
      hide HonestFiles, Touched, Injective, RecordedBy, Keys, Live;
      var unique := Deduplicate(sets);
      var found, missing := CheckBatch(unique);
      if |missing| == 0 {
        KeysEmpty(missing);
        if strictClock || hits == old(hits) {
          AllLive(sets);
        }
        return Some(found);
      }
      var workers := Least(parallelism, |missing|);
      result := ComputeMissing(missing, found, workers > 1);
      if result.Some? && (strictClock || hits == old(hits)) && |Keys(sets)| <= maxEntries && capHits == old(capHits) {
        AllLive(sets);
      }
    }

    // ----- one call after the other -----

    /** What one call of `get_or_compute` does to the entries asked for before it. */
    lemma {:induction false} TouchedAfterCall(
      times: map<K, Access>, files: map<Path<K>, File<D>>, next: nat, touched: set<K>, p: P)
      requires Valid() && precompute(p).Some? && TouchedIn(times, files, touched)
      requires forall k | k in times :: times[k].time <= now && times[k].slot < next
      requires |touched + {keyOf(p)}| <= maxEntries
      requires Evicts(Used(times - {keyOf(p)}, keyOf(p), now, next), Stored(files, p), accessTimes, disk, stuck)
      requires |index| == Least(|Used(times - {keyOf(p)}, keyOf(p), now, next)|, maxEntries)
      requires keyOf(p) !in touched
      ensures Touched(touched + {keyOf(p)})
    {
      hide Used, Evicts, TouchedIn, Stored;
      TouchedAfterMiss(times, files, touched, keyOf(p));
      TouchedAfterStore(times - {keyOf(p)}, files, next, touched, p);
    }

    /** A key is indexed, or its file is gone, or stuck. */
    predicate Accounted(entries: set<K>, files: map<Path<K>, File<D>>, k: K)
      reads this`stuck
    {
      k in entries || CacheFile(k) !in files || k in stuck
    }

    ghost predicate AllAccounted(entries: set<K>, files: map<Path<K>, File<D>>, keys: set<K>)
      reads this`stuck
    {
      forall k | k in keys :: Accounted(entries, files, k)
    }

    /** A miss leaves the key it stored and the keys asked for before indexed, gone or stuck. */
    lemma KeptAfterMiss(
      times: map<K, Access>, files: map<Path<K>, File<D>>, next: nat, keys: set<K>, p: P)
      requires precompute(p).Some? && AllAccounted(times.Keys, files, keys)
      requires Evicts(
        Used(times - {keyOf(p)}, keyOf(p), now, next), Stored(files, p), accessTimes, disk, stuck)
      requires Valid() && |index| <= maxEntries
      ensures Kept(index.Keys, disk, keys + {keyOf(p)}, true)
    {
    }

    /** The loop `for params in ...: paths[...] = get_or_compute(params)`. It raises exactly when
        one of the recomputations would; and with at most max_entries distinct keys, no byte
        eviction, and a clock that advances (or nothing found), every path it collected is live
        in the end: no call evicts what an earlier one returned. If everything is found, it is
        live too. But after a miss at most max_entries are left, and of the paths beyond them
        the files are gone. */
    method GetOrComputeEach(sets: seq<P>) returns (result: Option<map<K, Path<K>>>)
      requires Valid() && Honest()
      modifies this`index, this`accessTimes, this`nextSlot, this`disk, this`now
      modifies this`hits, this`misses, this`errors, this`capHits
      ensures Valid() && Honest()
      ensures result.Some? <==> forall p | p in sets :: precompute(p).Some?
      ensures result.Some? ==> result.value.Keys == Keys(sets)
      ensures result.Some? ==> forall k | k in result.value :: result.value[k] == CacheFile(k)
      ensures (result.Some? && (strictClock || hits == old(hits)) && |Keys(sets)| <= maxEntries
        && capHits == old(capHits)) ==> forall p | p in sets :: Live(p)
      ensures misses >= old(misses)
      ensures result.Some? && misses == old(misses) ==> forall p | p in sets :: Live(p)
      ensures result.Some? && misses > old(misses) ==>
        && |index| <= maxEntries
        && forall p | p in sets :: keyOf(p) in index || CacheFile(keyOf(p)) !in disk || keyOf(p) in stuck
      ensures result.Some? && misses > old(misses) && |Keys(sets)| > maxEntries ==>
        exists p :: p in sets && !Live(p) && (CacheFile(keyOf(p)) !in disk || keyOf(p) in stuck)
    {
      hide HonestFiles, Touched, Injective, RecordedBy, Keys, Live, Evicts, Stored, Used, Kept;
      var paths: map<K, Path<K>> := map[];
      KeysEmpty(sets[..0]);
      NothingTouched();
      NothingKept();
      assert paths.Keys == {};
      for i := 0 to |sets|
        invariant Valid() && Honest()
        invariant paths.Keys == Keys(sets[..i])
        invariant forall k | k in paths :: paths[k] == CacheFile(k)
        invariant forall p | p in sets[..i] :: precompute(p).Some?
        invariant hits >= old(hits) && capHits >= old(capHits)
        invariant (strictClock || hits == old(hits)) && |Keys(sets)| <= maxEntries && capHits == old(capHits)
          ==> Touched(Keys(sets[..i]))
        invariant misses >= old(misses) && Kept(index.Keys, disk, Keys(sets[..i]), misses > old(misses))
      {
        assert sets[..i + 1] == sets[..i] + [sets[i]];
        KeysSnoc(sets[..i], sets[i]);
        PrefixFits(sets, i + 1);
        var path := CallOne(sets[i], Keys(sets[..i]), misses > old(misses));
        if path.None? {
          return None;
        }
        paths := paths[keyOf(sets[i]) := path.value];
        assert paths.Keys == Keys(sets[..i]) + {keyOf(sets[i])};
      }
      assert sets[..|sets|] == sets;
      if (strictClock || hits == old(hits)) && |Keys(sets)| <= maxEntries && capHits == old(capHits) {
        AllLive(sets);
      }
      KeptMeans(sets, misses > old(misses));
      result := Some(paths);
    }

    /** Without a miss everything asked for is indexed and readable; after one the limit holds,
        and everything asked for is accounted for. */
    ghost predicate Kept(entries: set<K>, files: map<Path<K>, File<D>>, keys: set<K>, missed: bool)
      reads this`stuck
    {
      if missed then |entries| <= maxEntries && AllAccounted(entries, files, keys)
      else forall k | k in keys :: k in entries && CacheFile(k) in files && files[CacheFile(k)].readable
    }

    lemma {:induction false} KeptMeans(sets: seq<P>, missed: bool)
      requires Honest() && Kept(index.Keys, disk, Keys(sets), missed)
      ensures !missed ==> forall p | p in sets :: Live(p)
      ensures missed ==>
        && |index| <= maxEntries
        && forall p | p in sets :: keyOf(p) in index || CacheFile(keyOf(p)) !in disk || keyOf(p) in stuck
      ensures missed && |Keys(sets)| > maxEntries ==>
        exists p :: p in sets && !Live(p) && (CacheFile(keyOf(p)) !in disk || keyOf(p) in stuck)
    {
      assert forall p | p in sets :: keyOf(p) in Keys(sets);
      if missed {
        assert |index| == |index.Keys|;
        assert forall p | p in sets :: Accounted(index.Keys, disk, keyOf(p));
        if forall p | p in sets :: keyOf(p) in index {
          SubsetSize(Keys(sets), index.Keys);
        }
      }
    }

    lemma KeptAfterHit(
      entries: set<K>, files: map<Path<K>, File<D>>, keys: set<K>, missed: bool, k: K)
      requires Kept(entries, files, keys, missed)
      requires k in entries && CacheFile(k) in files && files[CacheFile(k)].readable
      ensures Kept(entries, files, keys + {k}, missed)
    {
    }

    lemma KeptAccounted(
      entries: set<K>, files: map<Path<K>, File<D>>, keys: set<K>, missed: bool)
      requires Kept(entries, files, keys, missed)
      ensures AllAccounted(entries, files, keys)
    {
    }

    lemma NothingKept()
      ensures Kept(index.Keys, disk, {}, false)
    {
    }

    lemma {:induction false} PrefixFits(sets: seq<P>, i: nat)
      requires i <= |sets|
      ensures |Keys(sets[..i])| <= |Keys(sets)|
    {
      SubsetSize(Keys(sets[..i]), Keys(sets));
    }

    /** One call of the loop. */
    method CallOne(p: P, ghost touched: set<K>, ghost missed: bool) returns (path: Option<Path<K>>)
      requires Valid() && Honest()
      modifies this`index, this`accessTimes, this`nextSlot, this`disk, this`now
      modifies this`hits, this`misses, this`errors, this`capHits
      ensures Valid() && Honest()
      ensures path == if precompute(p).None? then None else Some(CacheFile(keyOf(p)))
      ensures hits >= old(hits) && capHits >= old(capHits)
      ensures misses >= old(misses)
      ensures (path.Some? && (strictClock || hits == old(hits)) && |touched + {keyOf(p)}| <= maxEntries
        && capHits == old(capHits) && old(Touched(touched))) ==> Touched(touched + {keyOf(p)})
      ensures path.Some? && old(Kept(index.Keys, disk, touched, missed)) ==>
        Kept(index.Keys, disk, touched + {keyOf(p)}, missed || misses > old(misses))
    {
      hide HonestFiles, TouchedIn, Injective, Evicts, Stored, Used, Kept, AllAccounted;
      ghost var times, files, next, before, caps := accessTimes, disk, nextSlot, hits, capHits;
      ghost var kept := Kept(index.Keys, disk, touched, missed);
      if kept {
        KeptAccounted(index.Keys, disk, touched, missed);
      }
      path := GetOrCompute(p);
      if path.Some? && kept {
        if hits > before {
          KeptAfterHit(index.Keys, disk, touched, missed, keyOf(p));
        } else {
          KeptAfterMiss(times, files, next, touched, p);
        }
      }
      if path.Some? && |touched + {keyOf(p)}| <= maxEntries && capHits == caps && TouchedIn(times, files, touched) {
        if hits > before {
          if strictClock {
            TouchedAfterUse(times, files, touched, keyOf(p), now, next);
          }
        } else {
          TouchedIsUsable(times, files, touched);
          TouchedAfterCall(times, files, next, touched, p);
        }
      }
    }

    lemma TouchedIsUsable(times: map<K, Access>, files: map<Path<K>, File<D>>, touched: set<K>)
      requires TouchedIn(times, files, touched)
      ensures forall k | k in touched :: k in times && CacheFile(k) in files && files[CacheFile(k)].readable
    {
    }
  }

  lemma KeysSize<K, V, W>(a: map<K, V>, b: map<K, W>)
    requires a.Keys == b.Keys
    ensures |a| == |b|
  {
  }

  lemma Regroup<T>(a: set<T>, b: set<T>, x: T)
    ensures (a + {x}) + b == a + (b + {x}) == (a + b) + {x}
  {
  }

  lemma {:induction false} AddSize<T>(a: set<T>, x: T)
    ensures |a + {x}| == |a| + if x in a then 0 else 1
  {
    if x in a {
      assert a + {x} == a;
    }
  }

  lemma {:induction false} SameSizeSame<K(!new)>(before: map<K, Access>, after: map<K, Access>)
    requires LruEviction(before, after) && |after| == |before|
    ensures after == before
  {
    assert |after| == |after.Keys| && |before| == |before.Keys|;
    SubsetSize(after.Keys, before.Keys);
  }

  /** The newest key survives as long as anything does. */
  lemma {:induction false} NewestSurvives<K(!new)>(before: map<K, Access>, after: map<K, Access>, key: K)
    requires LruEviction(before, after) && Newer(before, {key}) && |after| >= 1
    ensures key in after
  {
    RecentSurvive(before, after, {key});
  }

  /** Exactly the newest keys are safe: a set of keys survives every eviction that leaves as many
      entries, if and only if all keys outside it are older. */
  lemma {:induction false} SurvivalIsRecency<K(!new)>(before: map<K, Access>, recent: set<K>)
    requires DistinctSlots(before) && recent <= before.Keys
    ensures Newer(before, recent) <==>
      forall after | LruEviction(before, after) && |after| >= |recent| :: recent <= after.Keys
  {
    if Newer(before, recent) {
      forall after | LruEviction(before, after) && |after| >= |recent|
        ensures recent <= after.Keys
      {
        RecentSurvive(before, after, recent);
      }
    } else {
      var r, k :| r in recent && k in before && k !in recent && !Older(before[k], before[r]);
      var oldest := OldestOf(before, recent);
      EvictingFrom(before, recent, oldest, k);
    }
  }

  /** Evicting up to and including the oldest key of the set leaves enough, if a newer key is
      outside the set. */
  lemma {:induction false} EvictingFrom<K(!new)>(before: map<K, Access>, recent: set<K>, oldest: K, k: K)
    requires DistinctSlots(before) && recent <= before.Keys && oldest in recent && k in before && k !in recent
    requires Older(before[oldest], before[k])
    requires forall r | r in recent && r != oldest :: Older(before[oldest], before[r])
    ensures exists after :: LruEviction(before, after) && |after| >= |recent| && !(recent <= after.Keys)
  {
    var after := map j | j in before && Older(before[oldest], before[j]) :: before[j];
    assert LruEviction(before, after);
    SubsetSize(recent - {oldest} + {k}, after.Keys);
    assert |recent - {oldest} + {k}| == |recent|;
  }

  lemma {:induction false} OldestOf<K(!new)>(times: map<K, Access>, keys: set<K>) returns (oldest: K)
    requires DistinctSlots(times) && keys <= times.Keys && |keys| > 0
    ensures oldest in keys && forall r | r in keys && r != oldest :: Older(times[oldest], times[r])
    decreases |keys|
  {
    oldest :| oldest in keys;
    var rest := keys - {oldest};
    if |rest| == 0 {
    } else {
      var other := OldestOf(times, rest);
      if Older(times[other], times[oldest]) {
        oldest := other;
      }
    }
  }

  /** Eviction leaves no choice: how many entries are left says which. */
  lemma {:induction false} EvictionIsDetermined<K(!new)>(before: map<K, Access>, a: map<K, Access>, b: map<K, Access>)
    requires LruEviction(before, a) && LruEviction(before, b) && |a| == |b|
    ensures a == b
  {
    OneInOther(before, a, b);
    if a.Keys <= b.Keys {
      SubsetSize(a.Keys, b.Keys);
    } else {
      SubsetSize(b.Keys, a.Keys);
    }
  }

  lemma {:induction false} OneInOther<K(!new)>(before: map<K, Access>, a: map<K, Access>, b: map<K, Access>)
    requires LruEviction(before, a) && LruEviction(before, b)
    ensures a.Keys <= b.Keys || b.Keys <= a.Keys
  {
    if k :| k in a && k !in b {
      forall j | j in b
        ensures j in a
      {
        if j !in a {
        }
      }
    }
  }

  /** Why the batch asks for an advancing clock: three entries of one time. The first was found
      and keeps its place, the third was just stored, the second was not asked for; the limit is
      two. The only eviction there is takes the one that was found. */
  lemma {:induction false} StandingClockEvictsHit(after: map<int, Access>)
    requires LruEviction(map[1 := Access(5, 0), 2 := Access(5, 1), 3 := Access(5, 2)], after) && |after| == 2
    ensures after == map[2 := Access(5, 1), 3 := Access(5, 2)]
  {
    var before := map[1 := Access(5, 0), 2 := Access(5, 1), 3 := Access(5, 2)];
    var left := map[2 := Access(5, 1), 3 := Access(5, 2)];
    assert LruEviction(before, left);
    EvictionIsDetermined(before, after, left);
  }

  function Least(a: int, b: int): int {
    if a <= b then a else b
  }

  lemma EvictsNothing<K(!new), D>(
    times: map<K, Access>, files: map<Path<K>, File<D>>, stuck: set<K>)
    ensures Evicts(times, files, times, files, stuck)
  {
  }

  lemma DropOne<K, V>(after: map<K, V>, gone: K, before: set<K>)
    requires gone in before && after.Keys == before - {gone}
    ensures |after| == |before| - 1
  {
  }

  lemma {:induction false} FewerKeys<K(!new), V, D>(after: map<K, V>, before: map<K, D>)
    requires after.Keys <= before.Keys
    ensures |after| <= |before|
  {
    SubsetSize(after.Keys, before.Keys);
  }

  lemma EvictsShrinks<K(!new), D>(
    times0: map<K, Access>, files0: map<Path<K>, File<D>>, times1: map<K, Access>, files1: map<Path<K>, File<D>>,
    stuck: set<K>)
    requires Evicts(times0, files0, times1, files1, stuck)
    ensures times1.Keys <= times0.Keys
  {
  }

  lemma EvictsTransitive<K(!new), D>(
    times0: map<K, Access>, files0: map<Path<K>, File<D>>,
    times1: map<K, Access>, files1: map<Path<K>, File<D>>,
    times2: map<K, Access>, files2: map<Path<K>, File<D>>, stuck: set<K>)
    requires Evicts(times0, files0, times1, files1, stuck)
    requires Evicts(times1, files1, times2, files2, stuck)
    ensures Evicts(times0, files0, times2, files2, stuck)
    ensures times2.Keys <= times1.Keys
  {
  }

  /** One more eviction of an oldest key extends an eviction. */
  lemma EvictsOneMore<K(!new), D>(
    times0: map<K, Access>, files0: map<Path<K>, File<D>>,
    times1: map<K, Access>, files1: map<Path<K>, File<D>>, gone: K,
    times2: map<K, Access>, files2: map<Path<K>, File<D>>, stuck: set<K>)
    requires Evicts(times0, files0, times1, files1, stuck)
    requires gone in times1 && times2 == times1 - {gone}
    requires forall j | j in times1 && j != gone :: Older(times1[gone], times1[j])
    requires files2 == if gone in stuck then files1 else files1 - {CacheFile(gone)}
    ensures Evicts(times0, files0, times2, files2, stuck)
  {
  }
}
