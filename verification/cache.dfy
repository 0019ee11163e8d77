/** Local caching strategies over a file store, and the memoizer that reads a
    cached value, computes it on a miss and writes it back. The file system is a
    map from path to the value pickled in that file; a stored `None` is Python's
    pickled `None`. */
module Cache {
  import opened Wrappers

  type Path = string

  /** `s.replace("/", "")`. */
  function StripSlashes(s: string): (r: string)
    ensures '/' !in r
    ensures |r| <= |s|
    ensures '/' !in s ==> r == s
  {
    if s == [] then []
    else StripSlashes(s[..|s| - 1]) + (if s[|s| - 1] == '/' then [] else [s[|s| - 1]])
  }

  /** Removing slashes distributes over concatenation. */
  lemma {:induction false} StripSlashesAppend(a: string, b: string)
    ensures StripSlashes(a + b) == StripSlashes(a) + StripSlashes(b)
    decreases |b|
  {
    if b == [] {
      assert a + b == a;
    } else {
      assert (a + b)[..|a + b| - 1] == a + b[..|b| - 1];
      StripSlashesAppend(a, b[..|b| - 1]);
    }
  }

  /** The directory part that `os.path.join(dir, name)` puts before a relative `name`. */
  function DirPrefix(dir: Path): Path {
    if dir == [] || dir[|dir| - 1] == '/' then dir else dir + "/"
  }

  /** POSIX `os.path.join(dir, name)` for two components. */
  function JoinPath(dir: Path, name: string): Path {
    if |name| > 0 && name[0] == '/' then name else DirPrefix(dir) + name
  }

  /** `_transform_key`: the path of the cache file for `key` under `dataDir`.
      The file name is the key with every slash removed and ".data" appended,
      so it never names a file outside `dataDir`. */
  function TransformKey(dataDir: Path, key: string): (r: Path)
    ensures r == DirPrefix(dataDir) + StripSlashes(key) + ".data"
    ensures '/' !in r[|DirPrefix(dataDir)|..]
  {
    var name := StripSlashes(key) + ".data";
    assert name[0] != '/' by {
      if |StripSlashes(key)| > 0 {
        assert name[0] == StripSlashes(key)[0];
      }
    }
    assert (DirPrefix(dataDir) + name)[|DirPrefix(dataDir)|..] == name;
    JoinPath(dataDir, name)
  }

  /** Two keys share a cache file exactly when they agree once slashes are removed. */
  lemma TransformKeyCollision(dataDir: Path, k1: string, k2: string)
    ensures TransformKey(dataDir, k1) == TransformKey(dataDir, k2) <==> StripSlashes(k1) == StripSlashes(k2)
  {
    var p := DirPrefix(dataDir);
    var s1, s2 := StripSlashes(k1), StripSlashes(k2);
    if TransformKey(dataDir, k1) == TransformKey(dataDir, k2) {
      assert |s1| == |s2|;
      assert s1 == (p + s1 + ".data")[|p|..|p| + |s1|];
      assert s2 == (p + s2 + ".data")[|p|..|p| + |s2|];
    }
  }

  /** For instance "a/b" and "ab" name the same cache file. */
  lemma SlashOnlyKeysCollide(dataDir: Path)
    ensures TransformKey(dataDir, "a/b") == TransformKey(dataDir, "ab")
  {
    assert "a/b"[..2] == "a/" && "a/"[..1] == "a";
    assert StripSlashes("a/") == "a";
    assert StripSlashes("a/b") == "ab";
    TransformKeyCollision(dataDir, "a/b", "ab");
  }

  /** The file system: each path holds one pickled value. */
  class FileStore<V> {
    var files: map<Path, Option<V>>

    constructor ()
      ensures files == map[]
    {
      files := map[];
    }
  }

  /** The two caching strategies. `BasicCacher` keeps its files under `dataDir`
      (the configured `DATA_DIR`). */
  datatype Cacher = NoCacher | BasicCacher(dataDir: Path)

  /** What `try_to_read(key)` returns on a file system holding `files`. */
  function Lookup<V>(c: Cacher, files: map<Path, Option<V>>, key: string): Option<V> {
    match c
    case NoCacher => None
    case BasicCacher(dir) =>
      var path := TransformKey(dir, key);
      if path in files then files[path] else None
  }

  /** The file system after `write(key, value)`. */
  function Stored<V>(c: Cacher, files: map<Path, Option<V>>, key: string, value: Option<V>): map<Path, Option<V>> {
    match c
    case NoCacher => files
    case BasicCacher(dir) => files[TransformKey(dir, key) := value]
  }

  /** `Cacher.try_to_read`: `NoCacher` always misses; `BasicCacher` misses when
      no file exists at the transformed key and otherwise returns its content. */
  method TryToRead<V>(c: Cacher, fs: FileStore<V>, key: string) returns (r: Option<V>)
    ensures r == Lookup(c, fs.files, key)
    ensures c.NoCacher? ==> r == None
    ensures c.BasicCacher? ==>
      r == (if TransformKey(c.dataDir, key) in fs.files then fs.files[TransformKey(c.dataDir, key)] else None)
  {
    match c
    case NoCacher =>
      r := None;
    case BasicCacher(dir) =>
      var path := TransformKey(dir, key);
      if path in fs.files {
        r := fs.files[path];
      } else {
        r := None;
      }
  }

  /** `Cacher.write`: `NoCacher` changes nothing; `BasicCacher` overwrites the
      file at the transformed key whether or not it already exists, and leaves
      every other file as it was. */
  method Write<V>(c: Cacher, fs: FileStore<V>, key: string, value: Option<V>)
    modifies fs
    ensures fs.files == Stored(c, old(fs.files), key, value)
    ensures c.NoCacher? ==> fs.files == old(fs.files)
    ensures c.BasicCacher? ==> fs.files == old(fs.files)[TransformKey(c.dataDir, key) := value]
  {
    match c
    case NoCacher =>
    case BasicCacher(dir) =>
      fs.files := fs.files[TransformKey(dir, key) := value];
  }

  /** What one call of a memoized function does: the value returned, or the
      exception the function raised, how many times the wrapped function ran,
      and the file system afterwards. */
  datatype MemoOutcome<V, E> = MemoOutcome(result: Result<Option<V>, E>, calls: nat, files: map<Path, Option<V>>)

  /** The wrapped function either returns a value or raises `E`. */
  function MemoizedCall<V, E>(c: Cacher, files: map<Path, Option<V>>, key: string, func: () -> Result<Option<V>, E>): MemoOutcome<V, E> {
    var cached := Lookup(c, files, key);
    if cached.Some? then MemoOutcome(Ok(cached), 0, files)
    else
      match func()
      case Err(e) => MemoOutcome(Err(e), 1, files)
      case Ok(v) => MemoOutcome(Ok(v), 1, Stored(c, files, key, v))
  }

  /** `memoize(key, cacher)(func)()`: a cached value that is not `None` is
      returned without running `func` and without writing; otherwise `func` runs
      once. When it returns, its result is written under `key` and returned;
      when it raises, the exception propagates and nothing is written. `calls`
      counts the runs of `func`. */
  method Memoize<V, E>(c: Cacher, fs: FileStore<V>, key: string, func: () -> Result<Option<V>, E>)
    returns (result: Result<Option<V>, E>, calls: nat)
    modifies fs
    ensures MemoOutcome(result, calls, fs.files) == MemoizedCall(c, old(fs.files), key, func)
    ensures Lookup(c, old(fs.files), key).Some? ==>
      result == Ok(Lookup(c, old(fs.files), key)) && calls == 0 && fs.files == old(fs.files)
    ensures Lookup(c, old(fs.files), key).None? && func().Ok? ==>
      result == func() && calls == 1 && fs.files == Stored(c, old(fs.files), key, func().value)
    ensures Lookup(c, old(fs.files), key).None? && func().Err? ==>
      result == func() && calls == 1 && fs.files == old(fs.files)
  {
    var cached := TryToRead(c, fs, key);
    if cached.Some? {
      return Ok(cached), 0;
    }
    result := func();
    calls := 1;
    if result.Err? {
      return;
    }
    Write(c, fs, key, result.value);
  }

  /** With `BasicCacher`, reading a key right after writing it gives the value written. */
  lemma ReadAfterWrite<V>(dir: Path, files: map<Path, Option<V>>, key: string, value: Option<V>)
    ensures Lookup(BasicCacher(dir), Stored(BasicCacher(dir), files, key, value), key) == value
  {
  }

  /** With `BasicCacher`, a write is seen by exactly the keys that share its file:
      those equal to it once slashes are removed. Every other key reads what it
      read before. */
  lemma WriteVisibility<V>(dir: Path, files: map<Path, Option<V>>, key: string, other: string, value: Option<V>)
    ensures StripSlashes(other) == StripSlashes(key) ==>
      Lookup(BasicCacher(dir), Stored(BasicCacher(dir), files, key, value), other) == value
    ensures StripSlashes(other) != StripSlashes(key) ==>
      Lookup(BasicCacher(dir), Stored(BasicCacher(dir), files, key, value), other) == Lookup(BasicCacher(dir), files, other)
  {
    TransformKeyCollision(dir, key, other);
  }

  /** `NoCacher` never serves a value, and writing through it changes nothing. */
  lemma NoCacherInert<V>(files: map<Path, Option<V>>, key: string, value: Option<V>)
    ensures Lookup(NoCacher, files, key) == None
    ensures Stored(NoCacher, files, key, value) == files
  {
  }

  /** With `BasicCacher`, once a call has produced a value other than `None`,
      the next call under the same key returns that value and does not run its
      function, whatever that function is. */
  lemma MemoizeSecondCallHits<V, E>(dir: Path, files: map<Path, Option<V>>, key: string,
                                   f: () -> Result<Option<V>, E>, g: () -> Result<Option<V>, E>)
    requires MemoizedCall(BasicCacher(dir), files, key, f).result.Ok?
    requires MemoizedCall(BasicCacher(dir), files, key, f).result.value.Some?
    ensures var first := MemoizedCall(BasicCacher(dir), files, key, f);
            MemoizedCall(BasicCacher(dir), first.files, key, g) == MemoOutcome(first.result, 0, first.files)
  {
    if Lookup(BasicCacher(dir), files, key).None? {
      ReadAfterWrite(dir, files, key, f().value);
    }
  }

  /** A function that returns `None` is run again on every call: `None` is stored
      but reads back as a miss. */
  lemma MemoizeNoneRecomputes<V, E>(c: Cacher, files: map<Path, Option<V>>, key: string, f: () -> Result<Option<V>, E>)
    requires Lookup(c, files, key).None?
    requires f() == Ok(None)
    ensures var first := MemoizedCall(c, files, key, f);
            first.calls == 1 && MemoizedCall(c, first.files, key, f).calls == 1
  {
    match c
    case NoCacher =>
    case BasicCacher(dir) =>
      ReadAfterWrite(dir, files, key, None);
  }

  /** A function that raises leaves the store as it was, so the next call runs
      it again: a failed fetch is never cached. */
  lemma MemoizeFailureNotCached<V, E>(c: Cacher, files: map<Path, Option<V>>, key: string,
                                     f: () -> Result<Option<V>, E>, g: () -> Result<Option<V>, E>)
    requires Lookup(c, files, key).None?
    requires f().Err?
    ensures var first := MemoizedCall(c, files, key, f);
            first == MemoOutcome(f(), 1, files)
            && MemoizedCall(c, first.files, key, g).calls == 1
  {
  }

  /** With `NoCacher` every call runs the function and returns its result. */
  lemma MemoizeNoCacherAlwaysComputes<V, E>(files: map<Path, Option<V>>, key: string, f: () -> Result<Option<V>, E>)
    ensures MemoizedCall(NoCacher, files, key, f) == MemoOutcome(f(), 1, files)
  {
  }
}
