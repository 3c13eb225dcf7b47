/** A small model of a file system: directories, and files with a size. The calls fail where POSIX says so; permissions,
    links and lack of space are left out. */
module FileSystemModel {
  /** Part of a path: a name, or a number written as a name. */
  datatype Component = Text(text: string) | Number(n: nat)

  type Path = seq<Component>

  function Parent(p: Path): Path
    requires p != []
  {
    p[..|p| - 1]
  }

  /** The directories and files of a state. */
  datatype Contents = Contents(dirs: set<Path>, files: map<Path, nat>)

  /** Everything has a parent directory, and nothing is both a directory and a file. */
  ghost predicate WellFormed(f: Contents) {
    && [] in f.dirs && [] !in f.files
    && (forall p :: p in f.dirs && p != [] ==> Parent(p) in f.dirs)
    && (forall p :: p in f.files && p != [] ==> Parent(p) in f.dirs)
    && (forall p :: p in f.dirs ==> p !in f.files)
  }

  /** What is below a directory or file is below its prefixes too. */
  lemma {:induction false} PrefixIsDirectory(f: Contents, p: Path, q: Path)
    requires WellFormed(f) && (p in f.dirs || p in f.files) && q <= p && q != p
    ensures q in f.dirs
    decreases |p|
  {
    assert Parent(p) in f.dirs;
    if q != Parent(p) { PrefixIsDirectory(f, Parent(p), q); }
  }

  predicate Empty(f: Contents, p: Path) {
    (forall q :: q in f.dirs && q != [] ==> Parent(q) != p) && (forall q :: q in f.files && q != [] ==> Parent(q) != p)
  }

  /** What lies directly in a directory. */
  function Entries(f: Contents, p: Path): set<Path> {
    (set q | q in f.dirs && q != [] && Parent(q) == p) + set q | q in f.files && q != [] && Parent(q) == p
  }

  /** The prefixes of a path, itself included. */
  function Prefixes(p: Path): set<Path> {
    (if p == [] then {} else Prefixes(Parent(p))) + {p}
  }

  lemma {:induction false} PrefixesAre(p: Path, q: Path)
    ensures q in Prefixes(p) <==> q <= p
  {
    if p != [] {
      PrefixesAre(Parent(p), q);
      if q <= p && q != p { assert q <= Parent(p); }
    }
  }

  /** What lies at or below p is gone. */
  function Without(f: Contents, p: Path): Contents {
    Contents(set q | q in f.dirs && !(p <= q), map q | q in f.files && !(p <= q) :: f.files[q])
  }

  class FileSystem {
    var dirs: set<Path>
    var files: map<Path, nat>

    function View(): Contents
      reads this
    {
      Contents(dirs, files)
    }

    ghost predicate Valid()
      reads this
    {
      WellFormed(View())
    }

    method IsDir(p: Path) returns (yes: bool)
      ensures yes <==> p in dirs
    {
      yes := p in dirs;
    }

    method IsFile(p: Path) returns (yes: bool)
      ensures yes <==> p in files
    {
      yes := p in files;
    }

    /** os.listdir(): the paths of the entries. */
    method Listdir(p: Path) returns (ok: bool, entries: set<Path>)
      ensures ok <==> p in dirs
      ensures ok ==> entries == Entries(View(), p)
    {
      ok, entries := p in dirs, Entries(View(), p);
    }

    /** os.mkdir() */
    method Mkdir(p: Path) returns (ok: bool)
      requires Valid()
      modifies this
      ensures Valid() && (ok <==> p !in old(dirs) && p !in old(files) && Above(p) in old(dirs))
      ensures files == old(files) && dirs == if ok then old(dirs) + {p} else old(dirs)
    {
      ok := p !in dirs && p !in files && Above(p) in dirs;
      if ok { dirs := dirs + {p}; }
    }

    /** os.makedirs(): the missing parents too, but the last directory must be new. */
    method Makedirs(p: Path) returns (ok: bool)
      requires Valid()
      modifies this
      ensures Valid() && (ok <==> p !in old(dirs) && forall q :: q <= p ==> q !in old(files))
      ensures files == old(files) && dirs == if ok then old(dirs) + Prefixes(p) else old(dirs)
      decreases |p|
    {
      if p == [] || p in dirs || p in files {
        ok := false;
        if p in files { assert p <= p; }
        return;
      }
      ghost var before := dirs;
      var parent := p[..|p| - 1];
      ok := true;
      if parent !in dirs {
        ok := Makedirs(parent);
      }
      if ok {
        KnownPrefixes(before, files, parent, dirs);
        PrefixesAre(parent, p);
        ok := Mkdir(p);
        forall q | q <= p ensures q !in files { if q != p { assert q <= parent; } }
      } else {
        var q :| q <= parent && q in files;
        assert q <= p;
      }
    }

    /** os.open(O_CREAT | O_WRONLY): an existing file keeps its contents. */
    method Create(p: Path) returns (ok: bool)
      requires Valid()
      modifies this
      ensures Valid() && (ok <==> p !in old(dirs) && Above(p) in old(dirs))
      ensures dirs == old(dirs) && files == if ok && p !in old(files) then old(files)[p := 0] else old(files)
    {
      ok := p !in dirs && Above(p) in dirs;
      if ok && p !in files { files := files[p := 0]; }
    }

    /** os.write() of n bytes at an offset. */
    method Write(p: Path, offset: nat, n: nat)
      requires Valid() && p in files
      modifies this
      ensures Valid() && dirs == old(dirs)
      ensures files == old(files)[p := if old(files)[p] < offset + n then offset + n else old(files)[p]]
    {
      if files[p] < offset + n {
        files := files[p := offset + n];
      } else {
        assert files[p := files[p]] == files;
      }
    }

    /** os.unlink() */
    method Unlink(p: Path) returns (ok: bool)
      requires Valid()
      modifies this
      ensures Valid() && (ok <==> p in old(files))
      ensures dirs == old(dirs) && files == old(files) - (if ok then {p} else {})
    {
      ok := p in files;
      if ok { files := files - {p}; }
    }

    /** os.rmdir() */
    method Rmdir(p: Path) returns (ok: bool)
      requires Valid()
      modifies this
      ensures Valid() && (ok <==> p != [] && p in old(dirs) && Empty(old(View()), p))
      ensures files == old(files) && dirs == old(dirs) - (if ok then {p} else {})
    {
      ok := p != [] && p in dirs && Empty(View(), p);
      if ok { dirs := dirs - {p}; }
    }

    /** shutil.rmtree(ignore_errors=True), where nothing stands in its way. */
    method Rmtree(p: Path)
      requires Valid() && p != []
      modifies this
      ensures Valid() && View() == if p in old(dirs) then Without(old(View()), p) else old(View())
    {
      if p in dirs {
        RemainsWellFormed(View(), p);
        dirs, files := (set q | q in dirs && !(p <= q)), map q | q in files && !(p <= q) :: files[q];
      }
    }
  }

  /** The parent, or the root itself for the root. */
  function Above(p: Path): Path {
    if p == [] then [] else Parent(p)
  }

  lemma {:induction false} RemainsWellFormed(f: Contents, p: Path)
    requires WellFormed(f) && p != []
    ensures WellFormed(Without(f, p))
  {
  }

  /** After makedirs the prefixes are directories, whether they were made or already there. */
  lemma {:induction false} KnownPrefixes(before: set<Path>, files: map<Path, nat>, parent: Path, after: set<Path>)
    requires WellFormed(Contents(before, files)) && WellFormed(Contents(after, files)) && parent in after
    requires after == before || after == before + Prefixes(parent)
    ensures after == before + Prefixes(parent) && forall q :: q <= parent ==> q !in files
  {
    forall q ensures q in Prefixes(parent) ==> q in after {
      PrefixesAre(parent, q);
      if q <= parent && q != parent { PrefixIsDirectory(Contents(after, files), parent, q); }
    }
    forall q | q <= parent ensures q !in files {
      if q != parent { PrefixIsDirectory(Contents(after, files), parent, q); }
    }
  }
}
