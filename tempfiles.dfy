/** `TempFileManager`: the process-wide tracker of temporary files and
    directories, with its age-based sweep and its full cleanup, run against
    an abstract file system whose clock readings are passed in. */
module TempManager {
  import opened Common

  /** A path as its list of components. */
  type Path = seq<string>

  /** `p` is `d` or lies somewhere below it. */
  predicate Under(p: Path, d: Path) {
    |d| <= |p| && p[..|d|] == d
  }

  function Parent(p: Path): Path {
    if p == [] then [] else p[..|p| - 1]
  }

  /** The system temporary directory that `tempfile` uses. */
  const TempRoot: Path := ["tmp"]

  /** The file system as the manager sees it: files and directories with
      their modification times (seconds), plus the paths whose inspection
      raises (`getmtime` for files, `listdir` for directories). */
  class FileSystem {
    var files: map<Path, int>
    var dirs: map<Path, int>
    var statFails: set<Path>
    var listFails: set<Path>

    constructor (files: map<Path, int>, dirs: map<Path, int>, statFails: set<Path>, listFails: set<Path>)
      ensures this.files == files && this.dirs == dirs
      ensures this.statFails == statFails && this.listFails == listFails
    {
      this.files := files;
      this.dirs := dirs;
      this.statFails := statFails;
      this.listFails := listFails;
    }

    /** `os.path.exists(p)`. */
    predicate Exists(p: Path)
      reads this
    {
      p in files || p in dirs
    }

    /** `os.path.getmtime(p)` when it does not raise. */
    function Mtime(p: Path): int
      reads this
      requires Exists(p)
    {
      if p in files then files[p] else dirs[p]
    }

    /** `not os.listdir(d)`, or `None` when `listdir` raises (no such
        directory, or one it may not read). */
    function ListEmpty(d: Path): Option<bool>
      reads this
    {
      if d !in dirs || d in listFails then None
      else Some(Childless(d, files, dirs))
    }

    /** `os.unlink(p)`: removes a file; on anything else it raises, which
        every caller here catches and logs. */
    method Unlink(p: Path)
      modifies this
      ensures files == old(files) - {p}
      ensures dirs == old(dirs) && statFails == old(statFails) && listFails == old(listFails)
    {
      files := files - {p};
    }

    /** `shutil.rmtree(d, ignore_errors=True)`: `d` and everything below it go. */
    method RemoveTree(d: Path)
      modifies this
      ensures files == Outside(old(files), {d}) && dirs == Outside(old(dirs), {d})
      ensures statFails == old(statFails) && listFails == old(listFails)
    {
      files := Outside(files, {d});
      dirs := Outside(dirs, {d});
    }

    /** `tempfile.mkdtemp` inside `parent`: a new directory stamped `now`. */
    method MakeDir(p: Path, now: int)
      modifies this
      ensures dirs == old(dirs)[p := now]
      ensures files == old(files) && statFails == old(statFails) && listFails == old(listFails)
    {
      dirs := dirs[p := now];
    }

    /** Writing a whole file at time `now`. */
    method Write(p: Path, now: int)
      modifies this
      ensures files == old(files)[p := now]
      ensures dirs == old(dirs) && statFails == old(statFails) && listFails == old(listFails)
    {
      files := files[p := now];
    }
  }

  /** `os.unlink` of each path in turn, failures being logged. */
  method UnlinkEach(fs: FileSystem, paths: set<Path>)
    modifies fs
    ensures fs.files == old(fs.files) - paths
    ensures fs.dirs == old(fs.dirs) && fs.statFails == old(fs.statFails) && fs.listFails == old(fs.listFails)
  {
    var pending := paths;
    while pending != {}
      invariant pending <= paths
      invariant fs.files == old(fs.files) - (paths - pending)
      invariant fs.dirs == old(fs.dirs) && fs.statFails == old(fs.statFails) && fs.listFails == old(fs.listFails)
      decreases |pending|
    {
      var p :| p in pending;
      fs.Unlink(p);
      pending := pending - {p};
    }
  }

  /** `rmtree` of each root in turn. */
  method RemoveTrees(fs: FileSystem, roots: set<Path>)
    modifies fs
    ensures fs.files == Outside(old(fs.files), roots) && fs.dirs == Outside(old(fs.dirs), roots)
    ensures fs.statFails == old(fs.statFails) && fs.listFails == old(fs.listFails)
  {
    var removed: set<Path> := {};
    while removed != roots
      invariant removed <= roots
      invariant fs.files == Outside(old(fs.files), removed) && fs.dirs == Outside(old(fs.dirs), removed)
      invariant fs.statFails == old(fs.statFails) && fs.listFails == old(fs.listFails)
      decreases |roots - removed|
    {
      var d :| d in roots - removed;
      OutsideStep(old(fs.files), removed, d);
      OutsideStep(old(fs.dirs), removed, d);
      fs.RemoveTree(d);
      removed := removed + {d};
    }
  }

  /** The entries of `m` lying below none of the directories in `roots`. */
  function Outside(m: map<Path, int>, roots: set<Path>): (r: map<Path, int>)
    ensures forall p :: p in r <==> p in m && BelowNone(p, roots)
    ensures forall p :: p in r ==> r[p] == m[p]
  {
    map p | p in m && BelowNone(p, roots) :: m[p]
  }

  /** `p` lies below none of the directories in `roots`. */
  predicate BelowNone(p: Path, roots: set<Path>) {
    forall d :: d in roots ==> !Under(p, d)
  }

  /** Removing trees one after another removes their union. */
  lemma OutsideStep(m: map<Path, int>, done: set<Path>, d: Path)
    ensures Outside(Outside(m, done), {d}) == Outside(m, done + {d})
  {
  }

  /** The manager. Python keeps the two tracked sets at class level; with a
      single instance they are its fields here. */
  class TempFileManager {
    var files: set<Path>
    var dirs: set<Path>
    const base: Path
    const fs: FileSystem

    /** Every tracked directory is the base directory or lies inside it. */
    ghost predicate Valid()
      reads this
    {
      |base| > 0 && forall d :: d in dirs ==> Under(d, base)
    }

    /** `_initialize`: `mkdtemp(prefix="photo_bot_")` under the system
        temporary directory; the new directory is the first tracked one.
        The background sweeper thread and the exit hook are not modelled. */
    constructor (fs: FileSystem, name: string, now: int)
      modifies fs
      ensures Valid() && this.fs == fs
      ensures base == TempRoot + ["photo_bot_" + name]
      ensures files == {} && dirs == {base}
      ensures fs.dirs == old(fs.dirs)[base := now] && fs.files == old(fs.files)
    {
      var b := TempRoot + ["photo_bot_" + name];
      base := b;
      this.fs := fs;
      files := {};
      dirs := {b};
      new;
      fs.MakeDir(b, now);
    }

    /** `create_temp_file(suffix)`: a name that `mktemp` makes up inside the
        base directory (the file itself is not created), now tracked. */
    method CreateTempFile(suffix: string, name: string) returns (path: Path)
      requires Valid()
      modifies this
      ensures Valid()
      ensures path == base + ["tmp" + name + suffix]
      ensures files == old(files) + {path} && dirs == old(dirs)
    {
      path := base + ["tmp" + name + suffix];
      files := files + {path};
    }

    /** `create_temp_dir(prefix)`: `mkdtemp` inside the base directory, tracked. */
    method CreateTempDir(prefix: string, name: string, now: int) returns (path: Path)
      requires Valid()
      modifies this, fs
      ensures Valid()
      ensures path == base + [prefix + name]
      ensures dirs == old(dirs) + {path} && files == old(files)
      ensures fs.dirs == old(fs.dirs)[path := now] && fs.files == old(fs.files)
    {
      path := base + [prefix + name];
      assert Under(path, base) by { assert path[..|base|] == base; }
      dirs := dirs + {path};
      fs.MakeDir(path, now);
    }

    /** `register_temp_file(path)`: tracked only if it exists. */
    method RegisterTempFile(path: Path)
      modifies this
      ensures files == if fs.Exists(path) then old(files) + {path} else old(files)
      ensures dirs == old(dirs)
    {
      if fs.Exists(path) {
        files := files + {path};
      }
    }

    /** `unregister_temp_file(path)`: `discard`, so an untracked path is no error. */
    method UnregisterTempFile(path: Path)
      modifies this
      ensures files == old(files) - {path} && dirs == old(dirs)
    {
      files := files - {path};
    }

    /** The file-selection rule of the sweep: missing, uninspectable, or
        last modified before `cutoff`. */
    predicate Stale(p: Path, cutoff: int)
      reads this, fs
    {
      !fs.Exists(p) || p in fs.statFails || fs.Mtime(p) < cutoff
    }

    /** The tracked files the sweep removes. */
    function StaleFiles(cutoff: int): (r: set<Path>)
      reads this, fs
      ensures forall p :: p in r <==> p in files && Stale(p, cutoff)
    {
      set p | p in files && Stale(p, cutoff)
    }

    /** The directory scan of `cleanup_old_files`: the tracked directories,
        other than the base one, whose listing succeeds and is empty. */
    method EmptyTrackedDirs() returns (emptied: set<Path>)
      ensures emptied == EmptyDirs(dirs, base, fs.files, fs.dirs, fs.listFails)
    {
      emptied := {};
      var unchecked := dirs;
      while unchecked != {}
        invariant unchecked <= dirs
        invariant emptied == EmptyDirs(dirs - unchecked, base, fs.files, fs.dirs, fs.listFails)
        decreases |unchecked|
      {
        var d :| d in unchecked;
        if d != base && fs.ListEmpty(d) == Some(true) {
          emptied := emptied + {d};
        }
        unchecked := unchecked - {d};
      }
    }

    /** `cleanup_old_files(max_age_hours)` at time `now` (seconds). Stale files
        are deleted and untracked; then every tracked directory other than
        the base one that `listdir` shows empty (after those deletions) is
        deleted and untracked. A directory whose listing raises stays, and
        the base directory is kept both on disk and in the tracked set. */
    method CleanupOldFiles(maxAgeHours: int, now: int)
      requires Valid()
      modifies this, fs
      ensures Valid()
      ensures var gone := old(StaleFiles(now - maxAgeHours * 3600));
        var emptied := EmptyDirs(old(dirs), base, old(fs.files) - gone, old(fs.dirs), old(fs.listFails));
        && files == old(files) - gone
        && dirs == old(dirs) - emptied
        && fs.files == Outside(old(fs.files) - gone, emptied)
        && fs.dirs == Outside(old(fs.dirs), emptied)
        && fs.statFails == old(fs.statFails) && fs.listFails == old(fs.listFails)
      ensures base in old(dirs) ==> base in dirs
      ensures base in old(fs.dirs) ==> base in fs.dirs
    {
      var cutoff := now - maxAgeHours * 3600;
      var gone := StaleFiles(cutoff);
      assert gone == old(StaleFiles(now - maxAgeHours * 3600));
      ghost var onDisk := fs.files;
      assert onDisk == old(fs.files);
      UnlinkEach(fs, gone);
      files := files - gone;
      var emptied := EmptyTrackedDirs();
      assert emptied == EmptyDirs(old(dirs), base, onDisk - gone, old(fs.dirs), old(fs.listFails));
      SweepKeepsBase(this, emptied);
      RemoveTrees(fs, emptied);
      dirs := dirs - emptied;
    }

    /** `cleanup_all()`: delete every tracked file, remove every tracked
        directory but the base one, then the base directory if it exists,
        and forget everything. */
    method CleanupAll()
      requires Valid()
      modifies this, fs
      ensures Valid()
      ensures files == {} && dirs == {}
      ensures var others := old(dirs) - {base};
        var unlinked := old(fs.files) - old(files);
        var roots := if base in unlinked || base in old(fs.dirs) then others + {base} else others;
        && fs.files == Outside(unlinked, roots)
        && fs.dirs == Outside(old(fs.dirs), roots)
    {
      UnlinkEach(fs, files);
      var others := dirs - {base};
      var baseExists := fs.Exists(base);
      RemoveTrees(fs, others);
      if baseExists {
        OutsideStep(old(fs.files) - old(files), others, base);
        OutsideStep(old(fs.dirs), others, base);
        fs.RemoveTree(base);
      }
      files := {};
      dirs := {};
    }
  }

  /** The tracked directories, other than `base`, that `listdir` reports
      empty in the given file system. */
  function EmptyDirs(tracked: set<Path>, base: Path, files: map<Path, int>, dirs: map<Path, int>,
                     listFails: set<Path>): (r: set<Path>)
    ensures r <= tracked && base !in r
    ensures forall d :: d in r <==> (d in tracked && d != base && d in dirs && d !in listFails
      && Childless(d, files, dirs))
  {
    set d | d in tracked && d != base && d in dirs && d !in listFails && Childless(d, files, dirs)
  }

  /** No file and no other directory has `d` as its parent. */
  predicate Childless(d: Path, files: map<Path, int>, dirs: map<Path, int>) {
    (forall p :: p in files ==> Parent(p) != d) && (forall q :: q in dirs && q != d ==> Parent(q) != d)
  }

  /** The sweep keeps the base directory: it is never among the removed
      directories, and no other tracked directory contains it. */
  lemma SweepKeepsBase(m: TempFileManager, emptied: set<Path>)
    requires m.Valid() && emptied <= m.dirs && m.base !in emptied
    ensures forall d :: d in emptied ==> !Under(m.base, d)
  {
    forall d | d in emptied ensures !Under(m.base, d) {
      StrictlyBelow(d, m.base);
    }
  }

  /** A path below `d` other than `d` itself is longer, so `d` is not below it. */
  lemma StrictlyBelow(p: Path, d: Path)
    requires Under(p, d) && p != d
    ensures |p| > |d| && !Under(d, p)
  {
  }

  /** `TempFileManager()`: the class-level instance slot of `__new__`. */
  class ManagerSlot {
    var instance: TempFileManager?

    /** An instance, once there is one, is a valid manager. */
    ghost predicate Valid()
      reads this, instance
    {
      instance != null ==> instance.Valid()
    }

    constructor ()
      ensures instance == null && Valid()
    {
      instance := null;
    }

    /** The first call creates and initialises the manager; every later
        call returns that same object and changes nothing. */
    method Obtain(fs: FileSystem, name: string, now: int) returns (m: TempFileManager)
      requires Valid()
      modifies this, fs
      ensures Valid() && m.Valid()
      ensures old(instance) != null ==> (m == old(instance) && instance == old(instance)
        && fs.files == old(fs.files) && fs.dirs == old(fs.dirs))
      ensures old(instance) == null ==> (fresh(m) && instance == m && m.Valid() && m.fs == fs
        && m.files == {} && m.dirs == {m.base})
      ensures instance == m
    {
      if instance == null {
        m := new TempFileManager(fs, name, now);
        instance := m;
      } else {
        m := instance;
      }
    }
  }

  /** Two constructions in a row yield one object, initialised once. */
  method ObtainTwice(slot: ManagerSlot, fs: FileSystem, now: int) returns (first: TempFileManager, second: TempFileManager)
    requires slot.Valid()
    modifies slot, fs
    ensures first == second && slot.instance == first
    ensures old(slot.instance) != null ==> first == old(slot.instance)
  {
    first := slot.Obtain(fs, "a", now);
    second := slot.Obtain(fs, "b", now + 1);
  }
}
