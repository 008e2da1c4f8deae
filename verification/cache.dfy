/**
 * The TTL file cache: one JSON file per key under a cache directory, each
 * holding the payload, the instant it was written and its time-to-live.
 *
 * The directory is a finite map from file name to node. Faults the real
 * filesystem may raise are fixed per node (a file that cannot be read, a file
 * that cannot be removed, a directory that cannot be listed or written), so
 * every operation is a pure function of the directory and the clock reading
 * `now`, returning its result together with the directory afterwards.
 */
module Cache {
  import opened Common
  import opened Text

  /** A point on the UTC time line in nanoseconds (chrono's resolution). */
  type Instant = int

  const NanosPerMinute: int := 60_000_000_000

  /** The JSON envelope `{ "data", "timestamp", "ttl_minutes" }` stored per key. */
  datatype CacheEntry<V> = CacheEntry(data: V, timestamp: Instant, ttlMinutes: int)

  /** The last instant at which the entry is still fresh. */
  function Deadline<V>(e: CacheEntry<V>): Instant {
    e.timestamp + e.ttlMinutes * NanosPerMinute
  }

  /** An entry is stale strictly after its deadline. */
  predicate IsExpired<V>(e: CacheEntry<V>, now: Instant) {
    now > Deadline(e)
  }

  /** What a file holds: an envelope serde parses, or text it does not. */
  datatype Content<V> = Envelope(entry: CacheEntry<V>) | Malformed(text: string)

  /** A directory entry: a regular file with its permission flags, or a sub-directory. */
  datatype Node<V> =
    | File(content: Content<V>, readable: bool, writable: bool, removable: bool)
    | Subdir

  /**
   * The cache directory: absent, a regular file sitting where the directory
   * should be, or a directory with its files and fault flags. `listable` says
   * whether it can be read; `writable` whether new files can be created in it.
   */
  datatype Root<V> =
    | Missing
    | PlainFile
    | Dir(files: map<string, Node<V>>, listable: bool, writable: bool)

  datatype CacheError = IoError | DeserializeError

  /** The result of one cache operation and the directory it leaves behind. */
  datatype Step<X, V> = Step(result: Result<X, CacheError>, root: Root<V>)

  /** A file `set` has just created: readable, writable, removable, holding `e`. */
  function Written<V>(e: CacheEntry<V>): Node<V> {
    File(Envelope(e), true, true, true)
  }

  /** A regular file whose removal succeeds. */
  predicate Removable<V>(node: Node<V>) {
    node.File? && node.removable
  }

  // ---------------------------------------------------------------------------
  // File names

  /** The characters `get_cache_path` keeps; every other one becomes `_`. */
  predicate IsFileNameChar(c: char) {
    'a' <= c <= 'z' || 'A' <= c <= 'Z' || '0' <= c <= '9' || c == '-' || c == '_'
  }

  predicate IsFileNameString(s: string) {
    forall i :: 0 <= i < |s| ==> IsFileNameChar(s[i])
  }

  /** The key with every character outside `[A-Za-z0-9_-]` replaced by `_`. */
  function Sanitize(key: string): (s: string)
    ensures |s| == |key|
    ensures IsFileNameString(s)
    ensures forall i :: 0 <= i < |key| && IsFileNameChar(key[i]) ==> s[i] == key[i]
    ensures forall i :: 0 <= i < |key| && !IsFileNameChar(key[i]) ==> s[i] == '_'
  {
    if key == [] then []
    else [if IsFileNameChar(key[0]) then key[0] else '_'] + Sanitize(key[1..])
  }

  const Extension: string := ".json"

  /** The name of the file that holds `key`, relative to the cache directory. */
  function CachePath(key: string): (name: string)
    ensures |name| == |key| + |Extension|
    ensures name[..|key|] == Sanitize(key)
    ensures name[|key|..] == Extension
  {
    Sanitize(key) + Extension
  }

  /**
   * `path.extension() == Some("json")` as Rust's `Path` computes it: the text
   * after the last dot, except that a name whose only dot is its first
   * character (such as `.json`) has no extension at all.
   */
  predicate HasJsonExtension(name: string) {
    |name| > |Extension| && name[|name| - |Extension|..] == Extension
  }

  /** A name ending in `.json`, including the bare `.json` the empty key maps to. */
  predicate IsEntryFileName(name: string) {
    |name| >= |Extension| && name[|name| - |Extension|..] == Extension
  }

  // ---------------------------------------------------------------------------
  // Operations

  /**
   * `FileCache::new`: whatever exists at the cache path is used as is, since
   * the source only asks whether the path exists, so a regular file there is
   * accepted too; a missing directory is created empty when `canCreate`, and
   * construction fails otherwise.
   */
  function New<V>(root: Root<V>, canCreate: bool): (r: Result<Root<V>, CacheError>)
    ensures r.Ok? ==> !r.value.Missing?
    ensures r.Ok? && !root.Missing? ==> r.value == root
    ensures r.Ok? && root.Missing? ==> r.value.Dir? && r.value.files == map[]
    ensures r.Err? <==> root.Missing? && !canCreate
  {
    match root
    case Dir(_, _, _) => Ok(root)
    case PlainFile => Ok(root)
    case Missing => if canCreate then Ok(Dir(map[], true, true)) else Err(IoError)
  }

  /**
   * `FileCache::get::<T>`, where `decode` is serde's conversion of the stored
   * payload to `T`. The envelope is decoded before expiry is checked, so a
   * payload of the wrong shape is an error even when it is stale. An expired
   * entry is evicted; a failed eviction is ignored.
   */
  function Get<V, T>(root: Root<V>, key: string, now: Instant, decode: V -> Option<T>): (s: Step<Option<T>, V>)
    // no file: a miss, not an error, and nothing changes
    ensures !root.Dir? || CachePath(key) !in root.files ==> s == Step(Ok(None), root)
    // a hit is the decoded payload of a stored entry that is still fresh
    ensures s.result.Ok? && s.result.value.Some? ==>
              && root.Dir? && CachePath(key) in root.files
              && var node := root.files[CachePath(key)];
              && node.File? && node.content.Envelope?
              && !IsExpired(node.content.entry, now)
              && decode(node.content.entry.data) == s.result.value
              && s.root == root
    // the only change a read makes is evicting the key's own, expired, file
    ensures s.root != root ==>
              && root.Dir? && CachePath(key) in root.files
              && var node := root.files[CachePath(key)];
              && node.File? && node.content.Envelope?
              && IsExpired(node.content.entry, now)
              && s.result == Ok(None)
              && s.root == root.(files := root.files - {CachePath(key)})
    ensures s.result.Err? ==> s.root == root
  {
    var name := CachePath(key);
    match root
    case Missing => Step(Ok(None), root)
    case PlainFile => Step(Ok(None), root)
    case Dir(files, _, _) =>
      if name !in files then Step(Ok(None), root)
      else
        match files[name]
        case Subdir => Step(Err(IoError), root)
        case File(content, readable, _, removable) =>
          if !readable then Step(Err(IoError), root)
          else
            match content
            case Malformed(_) => Step(Err(DeserializeError), root)
            case Envelope(e) =>
              match decode(e.data)
              case None => Step(Err(DeserializeError), root)
              case Some(value) =>
                if IsExpired(e, now) then
                  Step(Ok(None), if removable then root.(files := files - {name}) else root)
                else Step(Ok(Some(value)), root)
  }

  /**
   * `FileCache::set`: writes a fresh envelope stamped `now` to the key's file.
   * An existing regular file is overwritten in place when it is writable and
   * keeps its permissions; a new file needs a writable directory and is
   * created readable, writable and removable. Writing into a missing
   * directory, over a sub-directory or over a read-only file fails.
   */
  function Set<V>(root: Root<V>, key: string, data: V, ttlMinutes: int, now: Instant): (s: Step<(), V>)
    ensures s.result.Ok? <==>
              && root.Dir?
              && (CachePath(key) in root.files ==>
                    root.files[CachePath(key)].File? && root.files[CachePath(key)].writable)
              && (CachePath(key) !in root.files ==> root.writable)
    ensures s.result.Err? ==> s.root == root
    ensures s.result.Ok? ==>
              && s.root.Dir?
              && s.root.listable == root.listable && s.root.writable == root.writable
              && s.root.files.Keys == root.files.Keys + {CachePath(key)}
              && var node := s.root.files[CachePath(key)];
              && node.File? && node.content == Envelope(CacheEntry(data, now, ttlMinutes))
              && (CachePath(key) !in root.files ==> node == Written(CacheEntry(data, now, ttlMinutes)))
              && (CachePath(key) in root.files ==>
                    var prior := root.files[CachePath(key)];
                    node.readable == prior.readable && node.writable == prior.writable
                    && node.removable == prior.removable)
              && forall n :: n in root.files && n != CachePath(key) ==> s.root.files[n] == root.files[n]
  {
    var name := CachePath(key);
    var e := CacheEntry(data, now, ttlMinutes);
    match root
    case Missing => Step(Err(IoError), root)
    case PlainFile => Step(Err(IoError), root)
    case Dir(files, _, writable) =>
      if name in files then
        match files[name]
        case Subdir => Step(Err(IoError), root)
        case File(_, readable, fileWritable, removable) =>
          if fileWritable then Step(Ok(()), root.(files := files[name := File(Envelope(e), readable, fileWritable, removable)]))
          else Step(Err(IoError), root)
      else if writable then Step(Ok(()), root.(files := files[name := Written(e)]))
      else Step(Err(IoError), root)
  }

  /**
   * `FileCache::delete`: removes the key's file if there is one. Removing a
   * sub-directory or an unremovable file fails and changes nothing.
   */
  function Delete<V>(root: Root<V>, key: string): (s: Step<(), V>)
    ensures s.result.Err? <==>
              root.Dir? && CachePath(key) in root.files && !Removable(root.files[CachePath(key)])
    ensures s.result.Err? ==> s.root == root
    ensures !root.Dir? ==> s == Step(Ok(()), root)
    ensures s.result.Ok? ==> !s.root.Dir? || CachePath(key) !in s.root.files
    ensures s.result.Ok? && root.Dir? ==> s.root == root.(files := root.files - {CachePath(key)})
  {
    var name := CachePath(key);
    match root
    case Missing => Step(Ok(()), root)
    case PlainFile => Step(Ok(()), root)
    case Dir(files, _, _) =>
      if name !in files then Step(Ok(()), root)
      else if Removable(files[name]) then Step(Ok(()), root.(files := files - {name}))
      else Step(Err(IoError), root)
  }

  // ---------------------------------------------------------------------------
  // Sweeps over the whole directory

  /** The names a sweep selecting with `selected` actually removes. */
  function SweptNames<V>(files: map<string, Node<V>>, selected: (string, Node<V>) -> bool): (names: set<string>)
    ensures names <= files.Keys
  {
    set n | n in files && selected(n, files[n]) && Removable(files[n])
  }

  /** One visit of `Sweep`: the entry either joins the removed names or stays. */
  lemma SweepStep<V>(files: map<string, Node<V>>, selected: (string, Node<V>) -> bool,
                     unvisited: set<string>, removed: set<string>, n: string)
    requires n in unvisited && unvisited <= files.Keys
    requires removed == SweptNames(files, selected) - unvisited
    ensures selected(n, files[n]) && Removable(files[n]) ==>
              n !in removed && removed + {n} == SweptNames(files, selected) - (unvisited - {n})
              && |removed + {n}| == |removed| + 1
    ensures !(selected(n, files[n]) && Removable(files[n])) ==>
              removed == SweptNames(files, selected) - (unvisited - {n})
  {
  }

  lemma RemoveOneMore<V>(files: map<string, Node<V>>, removed: set<string>, n: string)
    ensures (files - removed) - {n} == files - (removed + {n})
  {
  }

  /**
   * The loop shared by `clear` and `cleanup_expired`: visit every directory
   * entry once, in whatever order the directory lists them, and remove each
   * one `selected` picks; a removal that fails is skipped and not counted.
   */
  method Sweep<V>(files: map<string, Node<V>>, selected: (string, Node<V>) -> bool)
    returns (count: nat, rest: map<string, Node<V>>)
    ensures count == |SweptNames(files, selected)|
    ensures rest == files - SweptNames(files, selected)
  {
    var unvisited := files.Keys;
    ghost var removed: set<string> := {};
    count := 0;
    rest := files;
    while unvisited != {}
      invariant unvisited <= files.Keys
      invariant removed == SweptNames(files, selected) - unvisited
      invariant rest == files - removed
      invariant count == |removed|
      decreases unvisited
    {
      var n :| n in unvisited;
      var doomed := selected(n, files[n]) && Removable(files[n]);
      SweepStep(files, selected, unvisited, removed, n);
      if doomed {
        RemoveOneMore(files, removed, n);
        rest := rest - {n};
        removed := removed + {n};
        count := count + 1;
      }
      unvisited := unvisited - {n};
    }
    assert removed == SweptNames(files, selected);
  }

  /** The files `clear` removes: every removable regular file named `*.json`. */
  function ClearedNames<V>(files: map<string, Node<V>>): set<string> {
    SweptNames(files, (n: string, node: Node<V>) => IsEntryFileName(n) && node.File?)
  }

  /**
   * `FileCache::clear`: removes every `.json` regular file regardless of
   * validity and counts the removals that succeeded. A missing directory
   * clears nothing; an unlistable one, or a regular file in its place, is an
   * error.
   */
  method Clear<V>(root: Root<V>) returns (s: Step<nat, V>)
    ensures root.Missing? ==> s == Step(Ok(0), root)
    ensures root.PlainFile? ==> s == Step(Err(IoError), root)
    ensures root.Dir? && !root.listable ==> s == Step(Err(IoError), root)
    ensures root.Dir? && root.listable ==>
              && s.result == Ok(|ClearedNames(root.files)|)
              && s.root == root.(files := root.files - ClearedNames(root.files))
  {
    match root
    case Missing =>
      s := Step(Ok(0), root);
    case PlainFile =>
      s := Step(Err(IoError), root);
    case Dir(files, listable, _) =>
      if !listable {
        s := Step(Err(IoError), root);
      } else {
        var count, rest := Sweep(files, (n: string, node: Node<V>) => IsEntryFileName(n) && node.File?);
        s := Step(Ok(count), root.(files := rest));
      }
  }

  /** The files `clear` as written removes: those Rust's `Path` says have the extension `json`. */
  function ClearedNamesAsWritten<V>(files: map<string, Node<V>>): set<string> {
    SweptNames(files, (n: string, node: Node<V>) => HasJsonExtension(n) && node.File?)
  }

  /**
   * `FileCache::clear` exactly as the source selects files, through
   * `Path::extension`. It differs from `Clear` only on the file `.json`, which
   * the empty key is stored in and which has no extension to Rust.
   */
  method ClearAsWritten<V>(root: Root<V>) returns (s: Step<nat, V>)
    ensures root.Missing? ==> s == Step(Ok(0), root)
    ensures root.PlainFile? ==> s == Step(Err(IoError), root)
    ensures root.Dir? && !root.listable ==> s == Step(Err(IoError), root)
    ensures root.Dir? && root.listable ==>
              && s.result == Ok(|ClearedNamesAsWritten(root.files)|)
              && s.root == root.(files := root.files - ClearedNamesAsWritten(root.files))
  {
    match root
    case Missing =>
      s := Step(Ok(0), root);
    case PlainFile =>
      s := Step(Err(IoError), root);
    case Dir(files, listable, _) =>
      if !listable {
        s := Step(Err(IoError), root);
      } else {
        var count, rest := Sweep(files, (n: string, node: Node<V>) => HasJsonExtension(n) && node.File?);
        s := Step(Ok(count), root.(files := rest));
      }
  }

  /** A regular file that can be read, parses as an envelope whatever its payload, and is stale at `now`. */
  predicate IsStaleFile<V>(node: Node<V>, now: Instant) {
    && node.File? && node.readable
    && node.content.Envelope? && IsExpired(node.content.entry, now)
  }

  /** A stale file named `*.json`. */
  predicate IsStaleEntryFile<V>(name: string, node: Node<V>, now: Instant) {
    IsEntryFileName(name) && IsStaleFile(node, now)
  }

  /** The files `cleanup_expired` removes. */
  function ExpiredNames<V>(files: map<string, Node<V>>, now: Instant): set<string> {
    SweptNames(files, (n: string, node: Node<V>) => IsStaleEntryFile(n, node, now))
  }

  /**
   * `FileCache::cleanup_expired`: removes the stale entry files and counts
   * the removals that succeeded. Unreadable and malformed files are skipped
   * silently and fresh entries are kept.
   */
  method CleanupExpired<V>(root: Root<V>, now: Instant) returns (s: Step<nat, V>)
    ensures root.Missing? ==> s == Step(Ok(0), root)
    ensures root.PlainFile? ==> s == Step(Err(IoError), root)
    ensures root.Dir? && !root.listable ==> s == Step(Err(IoError), root)
    ensures root.Dir? && root.listable ==>
              && s.result == Ok(|ExpiredNames(root.files, now)|)
              && s.root == root.(files := root.files - ExpiredNames(root.files, now))
  {
    match root
    case Missing =>
      s := Step(Ok(0), root);
    case PlainFile =>
      s := Step(Err(IoError), root);
    case Dir(files, listable, _) =>
      if !listable {
        s := Step(Err(IoError), root);
      } else {
        var count, rest := Sweep(files, (n: string, node: Node<V>) => IsStaleEntryFile(n, node, now));
        s := Step(Ok(count), root.(files := rest));
      }
  }

  /** The files `cleanup_expired` as written removes: stale files Rust's `Path` says have the extension `json`. */
  function ExpiredNamesAsWritten<V>(files: map<string, Node<V>>, now: Instant): set<string> {
    SweptNames(files, (n: string, node: Node<V>) => HasJsonExtension(n) && IsStaleFile(node, now))
  }

  /**
   * `FileCache::cleanup_expired` exactly as the source selects files, through
   * `Path::extension`. It differs from `CleanupExpired` only on the file
   * `.json`, which holds the empty key.
   */
  method CleanupExpiredAsWritten<V>(root: Root<V>, now: Instant) returns (s: Step<nat, V>)
    ensures root.Missing? ==> s == Step(Ok(0), root)
    ensures root.PlainFile? ==> s == Step(Err(IoError), root)
    ensures root.Dir? && !root.listable ==> s == Step(Err(IoError), root)
    ensures root.Dir? && root.listable ==>
              && s.result == Ok(|ExpiredNamesAsWritten(root.files, now)|)
              && s.root == root.(files := root.files - ExpiredNamesAsWritten(root.files, now))
  {
    match root
    case Missing =>
      s := Step(Ok(0), root);
    case PlainFile =>
      s := Step(Err(IoError), root);
    case Dir(files, listable, _) =>
      if !listable {
        s := Step(Err(IoError), root);
      } else {
        var count, rest := Sweep(files, (n: string, node: Node<V>) => HasJsonExtension(n) && IsStaleFile(node, now));
        s := Step(Ok(count), root.(files := rest));
      }
  }
}
