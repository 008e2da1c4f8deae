/**
 * Properties of the TTL file cache that relate several operations: the
 * round trip through `set` and `get`, lazy eviction, delete idempotence, the
 * counts `clear` and `cleanup_expired` return, and what key sanitising does.
 */
module CacheProperties {
  import opened Common
  import opened Text
  import opened Cache

  // ---------------------------------------------------------------------------
  // Expiry

  /**
   * Expiry is strict: an entry read exactly at its deadline is still fresh,
   * a zero TTL is stale one tick after the write, a negative TTL is stale from
   * the write on, and once stale an entry stays stale.
   */
  lemma ExpiryBoundaries<V>(e: CacheEntry<V>, now: Instant, later: Instant)
    ensures !IsExpired(e, Deadline(e))
    ensures e.ttlMinutes == 0 ==> (IsExpired(e, now) <==> now > e.timestamp)
    ensures e.ttlMinutes < 0 && now >= e.timestamp ==> IsExpired(e, now)
    ensures IsExpired(e, now) && later >= now ==> IsExpired(e, later)
  {
  }

  // ---------------------------------------------------------------------------
  // get

  /** The file `key` names, when the directory holds one. */
  function NodeOf<V>(root: Root<V>, key: string): Option<Node<V>> {
    if root.Dir? && CachePath(key) in root.files then Some(root.files[CachePath(key)]) else None
  }

  /** A fresh, readable envelope whose payload decodes is a hit and changes nothing. */
  lemma GetFresh<V, T>(root: Root<V>, key: string, now: Instant, decode: V -> Option<T>, e: CacheEntry<V>, x: T)
    requires NodeOf(root, key).Some? && NodeOf(root, key).value.File?
    requires NodeOf(root, key).value.readable && NodeOf(root, key).value.content == Envelope(e)
    requires decode(e.data) == Some(x) && !IsExpired(e, now)
    ensures Get(root, key, now, decode) == Step(Ok(Some(x)), root)
  {
  }

  /**
   * A stale, readable envelope whose payload decodes is a miss; its file is
   * removed when it can be, and a failed removal is swallowed.
   */
  lemma GetEvicts<V, T>(root: Root<V>, key: string, now: Instant, decode: V -> Option<T>, e: CacheEntry<V>)
    requires NodeOf(root, key).Some? && NodeOf(root, key).value.File?
    requires NodeOf(root, key).value.readable && NodeOf(root, key).value.content == Envelope(e)
    requires decode(e.data).Some? && IsExpired(e, now)
    ensures Get(root, key, now, decode).result == Ok(None)
    ensures NodeOf(root, key).value.removable ==>
              Get(root, key, now, decode).root == root.(files := root.files - {CachePath(key)})
    ensures !NodeOf(root, key).value.removable ==> Get(root, key, now, decode).root == root
  {
  }

  /** A corrupt file or a payload of the wrong shape is an error, never a miss. */
  lemma GetRejectsBadContent<V, T>(root: Root<V>, key: string, now: Instant, decode: V -> Option<T>)
    requires NodeOf(root, key).Some? && NodeOf(root, key).value.File? && NodeOf(root, key).value.readable
    requires var c := NodeOf(root, key).value.content;
             c.Malformed? || decode(c.entry.data).None?
    ensures Get(root, key, now, decode) == Step(Err(DeserializeError), root)
  {
  }

  /** A key whose name is taken by a sub-directory or an unreadable file is an I/O error, not a miss. */
  lemma GetReadFails<V, T>(root: Root<V>, key: string, now: Instant, decode: V -> Option<T>)
    requires NodeOf(root, key).Some?
    requires NodeOf(root, key).value.Subdir? || !NodeOf(root, key).value.readable
    ensures Get(root, key, now, decode) == Step(Err(IoError), root)
  {
  }

  /** After a read has evicted a key, the next read misses without touching anything. */
  lemma GetAfterEviction<V, T>(root: Root<V>, key: string, now: Instant, later: Instant, decode: V -> Option<T>)
    requires Get(root, key, now, decode).root != root
    ensures var after := Get(root, key, now, decode).root;
            Get(after, key, later, decode) == Step(Ok(None), after)
  {
  }

  // ---------------------------------------------------------------------------
  // set then get

  /** The conditions under which `set` succeeds. */
  predicate CanWrite<V>(root: Root<V>, key: string) {
    && root.Dir?
    && (CachePath(key) in root.files ==> root.files[CachePath(key)].File? && root.files[CachePath(key)].writable)
    && (CachePath(key) !in root.files ==> root.writable)
  }

  /** The key's file, if it already exists, can be read: `set` keeps that permission. */
  predicate ReadableOnceWritten<V>(root: Root<V>, key: string) {
    root.Dir? && CachePath(key) in root.files ==>
      root.files[CachePath(key)].File? && root.files[CachePath(key)].readable
  }

  /** The key's file, if it already exists, can be removed: `set` keeps that permission. */
  predicate RemovableOnceWritten<V>(root: Root<V>, key: string) {
    root.Dir? && CachePath(key) in root.files ==> Removable(root.files[CachePath(key)])
  }

  /**
   * Round trip: a read no later than the deadline of a successful write
   * returns the written payload, decoded; nothing is evicted.
   */
  lemma SetThenGet<V, T>(root: Root<V>, key: string, data: V, ttl: int, written: Instant, read: Instant,
                         decode: V -> Option<T>)
    requires CanWrite(root, key) && ReadableOnceWritten(root, key)
    requires written <= read <= written + ttl * NanosPerMinute
    ensures var after := Set(root, key, data, ttl, written).root;
            && Set(root, key, data, ttl, written).result == Ok(())
            && Get(after, key, read, decode) ==
                 Step(match decode(data) case Some(x) => Ok(Some(x)) case None => Err(DeserializeError), after)
  {
    var after := Set(root, key, data, ttl, written).root;
    assert after.files[CachePath(key)].content == Envelope(CacheEntry(data, written, ttl));
    assert after.files[CachePath(key)].readable;
  }

  /**
   * A read after the deadline of a write is a miss, and the file is gone
   * afterwards when it can be removed.
   */
  lemma SetThenGetLate<V, T>(root: Root<V>, key: string, data: V, ttl: int, written: Instant, read: Instant,
                             decode: V -> Option<T>)
    requires CanWrite(root, key) && ReadableOnceWritten(root, key)
    requires read > written + ttl * NanosPerMinute
    requires decode(data).Some?
    ensures var after := Set(root, key, data, ttl, written).root;
            && Get(after, key, read, decode).result == Ok(None)
            && (RemovableOnceWritten(root, key) ==> CachePath(key) !in Get(after, key, read, decode).root.files)
  {
    var after := Set(root, key, data, ttl, written).root;
    assert after.files[CachePath(key)].content == Envelope(CacheEntry(data, written, ttl));
    assert after.files[CachePath(key)].readable;
  }

  /** The decoder serde uses when `T` is the stored JSON value itself. */
  function Identity<V>(v: V): Option<V> {
    Some(v)
  }

  /**
   * The cache's basic test: a miss on an empty cache, then
   * `set("test_key", "test_value", 60)` read back within the hour, then a
   * `delete` that succeeds and a miss at any later read.
   */
  lemma BasicScenario(root: Root<string>, written: Instant, read: Instant, last: Instant)
    requires root.Dir? && root.writable && root.files == map[]
    requires written <= read <= written + 60 * NanosPerMinute
    ensures Get(root, "test_key", read, Identity).result == Ok(None)
    ensures var r := Set(root, "test_key", "test_value", 60, written).root;
            Get(r, "test_key", read, Identity).result == Ok(Some("test_value"))
    ensures var r := Set(root, "test_key", "test_value", 60, written).root;
            && Delete(r, "test_key").result == Ok(())
            && Get(Delete(r, "test_key").root, "test_key", last, Identity).result == Ok(None)
  {
    SetThenGet(root, "test_key", "test_value", 60, written, read, Identity);
    var r := Set(root, "test_key", "test_value", 60, written).root;
    assert Removable(r.files[CachePath("test_key")]);
    DeleteIdempotent(r, "test_key", last, Identity);
  }

  /** The cache's expiry test: a TTL of 0 is stale on any later read. */
  lemma ZeroTtlScenario(root: Root<string>, written: Instant, read: Instant)
    requires root.Dir? && root.writable && root.files == map[]
    requires written < read
    ensures var r := Set(root, "test_key", "test_value", 0, written).root;
            Get(r, "test_key", read, Identity).result == Ok(None)
  {
    SetThenGetLate(root, "test_key", "test_value", 0, written, read, Identity);
  }

  /** Cached leagues are gone, file and all, once their hour is over. */
  lemma LeaguesExpireScenario(root: Root<string>, leagues: string, written: Instant, read: Instant)
    requires root.Dir? && root.writable && root.files == map[]
    requires read > written + 60 * NanosPerMinute
    ensures var r := Set(root, "leagues", leagues, 60, written).root;
            && Get(r, "leagues", read, Identity).result == Ok(None)
            && "leagues.json" !in Get(r, "leagues", read, Identity).root.files
  {
    SetThenGetLate(root, "leagues", leagues, 60, written, read, Identity);
    assert Sanitize("leagues") == "leagues";
  }

  /**
   * A regular file at the cache path: construction accepts it, reads miss,
   * deletes succeed without touching anything, and writes fail.
   */
  lemma PlainFileInPlace<V, T>(key: string, data: V, ttl: int, now: Instant, decode: V -> Option<T>, canCreate: bool)
    ensures New<V>(PlainFile, canCreate) == Ok(PlainFile)
    ensures Get(PlainFile, key, now, decode) == Step(Ok(None), PlainFile)
    ensures Delete<V>(PlainFile, key) == Step(Ok(()), PlainFile)
    ensures Set(PlainFile, key, data, ttl, now) == Step(Err(IoError), PlainFile)
  {
  }

  // ---------------------------------------------------------------------------
  // Sanitising and collisions

  /** Sanitising leaves a key alone exactly when it is already a valid file-name stem. */
  lemma {:induction false} SanitizeFixesSafeKeys(key: string)
    ensures Sanitize(key) == key <==> IsFileNameString(key)
  {
    if key != [] {
      SanitizeFixesSafeKeys(key[1..]);
      assert IsFileNameString(key) <==> IsFileNameChar(key[0]) && IsFileNameString(key[1..]);
    }
  }

  /** Sanitising twice is sanitising once. */
  lemma SanitizeIdempotent(key: string)
    ensures Sanitize(Sanitize(key)) == Sanitize(key)
  {
    SanitizeFixesSafeKeys(Sanitize(key));
  }

  /** Two characters sanitising cannot tell apart: equal, or both `_` or replaced by `_`. */
  predicate SanitizeAlike(c1: char, c2: char) {
    c1 == c2 || ((!IsFileNameChar(c1) || c1 == '_') && (!IsFileNameChar(c2) || c2 == '_'))
  }

  lemma SanitizedCharsAgree(k1: string, k2: string, i: nat)
    requires i < |k1| && i < |k2|
    ensures Sanitize(k1)[i] == Sanitize(k2)[i] <==> SanitizeAlike(k1[i], k2[i])
  {
  }

  lemma SanitizedAlikeChars(k1: string, k2: string)
    requires Sanitize(k1) == Sanitize(k2)
    ensures |k1| == |k2| && forall i :: 0 <= i < |k1| ==> SanitizeAlike(k1[i], k2[i])
  {
    forall i | 0 <= i < |k1| ensures SanitizeAlike(k1[i], k2[i]) {
      SanitizedCharsAgree(k1, k2, i);
    }
  }

  lemma AlikeCharsSanitizeAlike(k1: string, k2: string)
    requires |k1| == |k2| && forall i :: 0 <= i < |k1| ==> SanitizeAlike(k1[i], k2[i])
    ensures Sanitize(k1) == Sanitize(k2)
  {
    var s1, s2 := Sanitize(k1), Sanitize(k2);
    forall i | 0 <= i < |s1| ensures s1[i] == s2[i] {
      SanitizedCharsAgree(k1, k2, i);
    }
  }

  /**
   * Two keys sanitise alike exactly when they have the same length and, at
   * every position, characters sanitising cannot tell apart.
   */
  lemma SanitizeCollisionClass(k1: string, k2: string)
    ensures Sanitize(k1) == Sanitize(k2) <==>
              |k1| == |k2| && forall i :: 0 <= i < |k1| ==> SanitizeAlike(k1[i], k2[i])
  {
    if Sanitize(k1) == Sanitize(k2) {
      SanitizedAlikeChars(k1, k2);
    }
    if |k1| == |k2| && forall i :: 0 <= i < |k1| ==> SanitizeAlike(k1[i], k2[i]) {
      AlikeCharsSanitizeAlike(k1, k2);
    }
  }

  /** Two keys share a file exactly when they sanitise alike. */
  lemma CachePathCollision(k1: string, k2: string)
    ensures CachePath(k1) == CachePath(k2) <==> Sanitize(k1) == Sanitize(k2)
  {
    if CachePath(k1) == CachePath(k2) {
      assert Sanitize(k1) == CachePath(k1)[..|k1|];
      assert Sanitize(k2) == CachePath(k2)[..|k2|];
    }
  }

  /**
   * Distinct keys with the same sanitised name share one entry: writing one
   * and reading the other returns what was written.
   */
  lemma CollidingKeysShareEntry<V>(root: Root<V>, k1: string, k2: string, data: V, ttl: int, now: Instant)
    requires Sanitize(k1) == Sanitize(k2)
    requires CanWrite(root, k1) && ReadableOnceWritten(root, k1)
    requires ttl >= 0
    ensures Get(Set(root, k1, data, ttl, now).root, k2, now, Identity).result == Ok(Some(data))
  {
    CachePathCollision(k1, k2);
    SetThenGet(root, k1, data, ttl, now, now, Identity);
  }

  /** `a.b` and `a/b` are distinct keys stored in the one file `a_b.json`. */
  lemma CollisionExample()
    ensures "a.b" != "a/b" && CachePath("a.b") == CachePath("a/b") == "a_b.json"
  {
    assert Sanitize("a.b") == "a_b";
    assert Sanitize("a/b") == "a_b";
  }

  // ---------------------------------------------------------------------------
  // delete

  /** Deleting twice is deleting once, and a read after a delete misses. */
  lemma DeleteIdempotent<V, T>(root: Root<V>, key: string, now: Instant, decode: V -> Option<T>)
    requires Delete(root, key).result.Ok?
    ensures var after := Delete(root, key).root;
            && Delete(after, key) == Step(Ok(()), after)
            && Get(after, key, now, decode) == Step(Ok(None), after)
  {
  }

  // ---------------------------------------------------------------------------
  // clear and cleanup_expired

  /** Performs `set` for each `(key, value)` pair in order, with one TTL and clock reading. */
  function SetAll<V>(root: Root<V>, writes: seq<(string, V)>, ttl: int, now: Instant): Root<V>
    decreases |writes|
  {
    if writes == [] then root
    else SetAll(Set(root, writes[0].0, writes[0].1, ttl, now).root, writes[1..], ttl, now)
  }

  /** The file names a sequence of writes targets. */
  function WrittenNames<V>(writes: seq<(string, V)>): set<string> {
    set i | 0 <= i < |writes| :: CachePath(writes[i].0)
  }

  lemma WrittenNamesCons<V>(writes: seq<(string, V)>)
    requires writes != []
    ensures WrittenNames(writes) == {CachePath(writes[0].0)} + WrittenNames(writes[1..])
  {
    forall n | n in WrittenNames(writes) ensures n in {CachePath(writes[0].0)} + WrittenNames(writes[1..]) {
      var i :| 0 <= i < |writes| && n == CachePath(writes[i].0);
      if i > 0 { assert n == CachePath(writes[1..][i - 1].0); }
    }
    forall n | n in WrittenNames(writes[1..]) ensures n in WrittenNames(writes) {
      var i :| 0 <= i < |writes[1..]| && n == CachePath(writes[1..][i].0);
      assert n == CachePath(writes[i + 1].0);
    }
  }

  /** No two writes target the same file. */
  predicate DistinctNames<V>(writes: seq<(string, V)>) {
    forall i, j :: 0 <= i < j < |writes| ==> CachePath(writes[i].0) != CachePath(writes[j].0)
  }

  /** A writable directory of writable, removable regular files only, which every write succeeds on. */
  predicate FlatWritable<V>(root: Root<V>) {
    && root.Dir? && root.writable
    && forall n :: n in root.files ==> root.files[n].File? && root.files[n].writable && root.files[n].removable
  }

  /** Writing into a flat writable directory adds exactly the written names, as removable files. */
  lemma {:induction false} SetAllFiles<V>(root: Root<V>, writes: seq<(string, V)>, ttl: int, now: Instant)
    requires FlatWritable(root)
    ensures var r := SetAll(root, writes, ttl, now);
            && FlatWritable(r) && r.listable == root.listable
            && r.files.Keys == root.files.Keys + WrittenNames(writes)
            && (forall n :: n in WrittenNames(writes) ==> Removable(r.files[n]))
            && (forall n :: n in root.files && n !in WrittenNames(writes) ==> r.files[n] == root.files[n])
    decreases |writes|
  {
    if writes != [] {
      var next := Set(root, writes[0].0, writes[0].1, ttl, now).root;
      SetAllFiles(next, writes[1..], ttl, now);
      WrittenNamesCons(writes);
    }
  }

  /** Distinct targets: as many files as writes. */
  lemma {:induction false} WrittenNamesCount<V>(writes: seq<(string, V)>)
    requires DistinctNames(writes)
    ensures |WrittenNames(writes)| == |writes|
    decreases |writes|
  {
    if writes != [] {
      var tail := writes[1..];
      assert DistinctNames(tail) by {
        forall i, j | 0 <= i < j < |tail| ensures CachePath(tail[i].0) != CachePath(tail[j].0) {
          assert tail[i] == writes[i + 1] && tail[j] == writes[j + 1];
        }
      }
      WrittenNamesCount(tail);
      WrittenNamesCons(writes);
      assert CachePath(writes[0].0) !in WrittenNames(tail) by {
        forall i | 0 <= i < |tail| ensures CachePath(tail[i].0) != CachePath(writes[0].0) {
          assert tail[i] == writes[i + 1];
        }
      }
    }
  }

  /** Every file the cache writes is one `clear` selects. */
  lemma CachePathIsEntryFile(key: string)
    ensures IsEntryFileName(CachePath(key))
  {
  }

  lemma WrittenNamesAreEntryFiles<V>(writes: seq<(string, V)>)
    ensures forall n :: n in WrittenNames(writes) ==> IsEntryFileName(n)
  {
    forall n | n in WrittenNames(writes) ensures IsEntryFileName(n) {
      var i :| 0 <= i < |writes| && n == CachePath(writes[i].0);
      CachePathIsEntryFile(writes[i].0);
    }
  }

  /**
   * Writing N keys with distinct file names into an empty directory and then
   * clearing removes all N files and reports N, leaving the directory empty.
   */
  lemma ClearCountsWrittenKeys<V>(writes: seq<(string, V)>, ttl: int, now: Instant, listable: bool)
    requires DistinctNames(writes)
    ensures var r := SetAll(Dir(map[], listable, true), writes, ttl, now);
            && r.Dir?
            && ClearedNames(r.files) == r.files.Keys
            && |ClearedNames(r.files)| == |writes|
  {
    var r := SetAll(Dir(map[], listable, true), writes, ttl, now);
    SetAllFiles(Dir(map[], listable, true), writes, ttl, now);
    WrittenNamesCount(writes);
    WrittenNamesAreEntryFiles(writes);
    assert r.files.Keys == WrittenNames(writes);
    forall n | n in r.files ensures n in ClearedNames(r.files) {
      assert IsEntryFileName(n) && Removable(r.files[n]);
    }
  }

  /**
   * The cache's test of `clear`: two keys written, two files removed, and
   * both keys miss at any later read.
   */
  lemma ClearTwoKeys(now: Instant, later: Instant)
    ensures var r := SetAll(Dir(map[], true, true), [("key1", "value1"), ("key2", "value2")], 60, now);
            var cleared := r.(files := r.files - ClearedNames(r.files));
            && |ClearedNames(r.files)| == 2
            && Get(cleared, "key1", later, Identity) == Step(Ok(None), cleared)
            && Get(cleared, "key2", later, Identity) == Step(Ok(None), cleared)
  {
    assert Sanitize("key1") == "key1" && Sanitize("key2") == "key2";
    ClearCountsWrittenKeys([("key1", "value1"), ("key2", "value2")], 60, now, true);
    var r := SetAll(Dir(map[], true, true), [("key1", "value1"), ("key2", "value2")], 60, now);
    assert (r.files - ClearedNames(r.files)).Keys == {};
  }

  /** `clear` never removes a file whose name does not end in `.json`, nor a sub-directory. */
  lemma ClearSparesOtherFiles<V>(files: map<string, Node<V>>, n: string)
    requires n in files && (!IsEntryFileName(n) || files[n].Subdir?)
    ensures n !in ClearedNames(files)
  {
  }

  /**
   * `cleanup_expired` keeps every fresh entry, every malformed or unreadable
   * file, and every file not named `*.json`.
   */
  lemma CleanupSparesTheRest<V>(files: map<string, Node<V>>, now: Instant, n: string)
    requires n in files
    requires var node := files[n];
             || !IsEntryFileName(n) || node.Subdir? || !node.readable || node.content.Malformed?
             || !IsExpired(node.content.entry, now)
    ensures n !in ExpiredNames(files, now)
  {
  }

  /** A second cleanup at the same instant finds nothing left to remove. */
  lemma CleanupTwiceRemovesNothing<V>(files: map<string, Node<V>>, now: Instant)
    ensures ExpiredNames(files - ExpiredNames(files, now), now) == {}
  {
    var rest := files - ExpiredNames(files, now);
    forall n | n in rest ensures n !in ExpiredNames(rest, now) {
      assert rest[n] == files[n];
    }
  }

  // ---------------------------------------------------------------------------
  // The empty key and `Path::extension`

  /** Rust sees the extension `json` on a cache file exactly when the key is not empty. */
  lemma CachePathHasExtension(key: string)
    ensures HasJsonExtension(CachePath(key)) <==> key != []
  {
  }

  /**
   * `clear` as written misses the empty key: after `set("", v, ttl)` on an
   * empty directory it removes nothing and reports 0, and the value can still
   * be read back.
   */
  lemma EmptyKeySurvivesClearAsWritten<V>(data: V, ttl: int, now: Instant)
    requires ttl >= 0
    ensures var r := Set(Dir(map[], true, true), "", data, ttl, now).root;
            && r.files.Keys == {".json"}
            && ClearedNamesAsWritten(r.files) == {}
            && Get(r, "", now, Identity).result == Ok(Some(data))
  {
    var r := Set(Dir(map[], true, true), "", data, ttl, now).root;
    assert CachePath("") == ".json";
    SetThenGet(Dir(map[], true, true), "", data, ttl, now, now, Identity);
  }

  /**
   * `cleanup_expired` as written misses the empty key too: once the entry
   * `set("", v, ttl)` wrote is stale, the corrected cleanup removes it but the
   * one as written selects nothing, so the stale file stays on disk.
   */
  lemma EmptyKeySurvivesCleanupAsWritten<V>(data: V, ttl: int, now: Instant, later: Instant)
    requires later > now + ttl * NanosPerMinute
    ensures var r := Set(Dir(map[], true, true), "", data, ttl, now).root;
            && ExpiredNames(r.files, later) == {".json"}
            && ExpiredNamesAsWritten(r.files, later) == {}
  {
    var r := Set(Dir(map[], true, true), "", data, ttl, now).root;
    assert CachePath("") == ".json";
    assert r.files == map[".json" := Written(CacheEntry(data, now, ttl))];
    assert IsStaleEntryFile(".json", r.files[".json"], later);
  }

  /** `Clear` removes the file of every key that has one, the empty key included. */
  lemma ClearRemovesEveryKey<V>(root: Root<V>, key: string)
    requires root.Dir? && CachePath(key) in root.files && Removable(root.files[CachePath(key)])
    ensures CachePath(key) in ClearedNames(root.files)
  {
    CachePathIsEntryFile(key);
  }
}
