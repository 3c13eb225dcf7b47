/** The files workload: making, reading and removing a tree of small files (pod_files/files.py). */
module Files {
  import opened FileSystemModel

  /** The base directories, the name of this process's own directory in each, and the sizes of the job. */
  datatype Config = Config(bases: seq<Path>, local: Component, dirs: nat, files: nat, blockSize: nat, blocks: nat)

  function Volume(c: Config, i: nat): Path
    requires i < |c.bases|
  {
    c.bases[i] + [c.local]
  }

  function FileSize(c: Config): nat {
    Repeat(c.blocks, c.blockSize)
  }

  /** dir/0, dir/1, ... */
  function Children(dir: Path, n: nat): set<Path> {
    if n == 0 then {} else Children(dir, n - 1) + {dir + [Number(n - 1)]}
  }

  lemma {:induction false} ChildrenAre(dir: Path, n: nat, p: Path)
    ensures p in Children(dir, n) <==>
      |p| == |dir| + 1 && dir <= p && p[|dir|].Number? && p[|dir|].n < n
  {
    if n > 0 {
      ChildrenAre(dir, n - 1, p);
      if |p| == |dir| + 1 && dir <= p && p[|dir|] == Number(n - 1) { assert p == dir + [Number(n - 1)]; }
    }
  }

  function TreeDirs(v: Path, d: nat): set<Path> {
    {v} + Children(v, d)
  }

  function TreeFiles(v: Path, d: nat, f: nat): set<Path> {
    if d == 0 then {} else TreeFiles(v, d - 1, f) + Children(v + [Number(d - 1)], f)
  }

  lemma {:induction false} TreeFilesAre(v: Path, d: nat, f: nat, p: Path)
    ensures p in TreeFiles(v, d, f) <==>
      |p| == |v| + 2 && v <= p && p[|v|].Number? && p[|v|].n < d && p[|v| + 1].Number? && p[|v| + 1].n < f
  {
    if d > 0 {
      TreeFilesAre(v, d - 1, f, p);
      ChildrenAre(v + [Number(d - 1)], f, p);
      if |p| == |v| + 2 && v <= p && p[|v|] == Number(d - 1) { assert v + [Number(d - 1)] <= p; }
    }
  }

  /** Everything of a tree is at or below its root. */
  lemma {:induction false} TreeIsBelow(v: Path, d: nat, f: nat, p: Path)
    requires p in TreeDirs(v, d) || p in TreeFiles(v, d, f)
    ensures v <= p
  {
    ChildrenAre(v, d, p);
    TreeFilesAre(v, d, f, p);
  }

  function AllOf(paths: set<Path>, size: nat): map<Path, nat> {
    map p | p in paths :: size
  }

  /** n times x, by adding up. */
  function Repeat(n: nat, x: nat): nat {
    if n == 0 then 0 else Repeat(n - 1, x) + x
  }

  lemma {:induction false} RepeatIs(n: nat, x: nat)
    ensures Repeat(n, x) == n * x
  {
    if n > 0 { RepeatIs(n - 1, x); assert n * x == (n - 1) * x + x; }
  }

  // ---------------------------------------------------------------------------------------------
  // Making

  /** One file: open it and write its blocks. */
  method MakeFile(fs: FileSystem, c: Config, filename: Path) returns (ok: bool, ops: nat)
    requires fs.Valid()
    modifies fs
    ensures fs.Valid() && fs.dirs == old(fs.dirs)
    ensures ok <==> filename !in old(fs.dirs) && Above(filename) in old(fs.dirs)
    ensures !ok ==> fs.files == old(fs.files)
    ensures ok ==> ops == 1 + c.blocks
    ensures ok && filename !in old(fs.files) ==> fs.files == old(fs.files)[filename := FileSize(c)]
  {
    ops := 0;
    ok := fs.Create(filename);
    if !ok { return; }
    ops := 1;
    var offset := 0;
    for b := 0 to c.blocks
      invariant fs.Valid() && fs.dirs == old(fs.dirs) && filename in fs.files
      invariant ops == 1 + b && offset == Repeat(b, c.blockSize)
      invariant filename !in old(fs.files) ==> fs.files == old(fs.files)[filename := offset]
    {
      fs.Write(filename, offset, c.blockSize);
      offset := offset + c.blockSize;
      ops := ops + 1;
    }
  }

  function FileOps(c: Config): nat { 1 + c.blocks }

  function DirOps(c: Config): nat { 1 + Repeat(c.files, FileOps(c)) }

  function VolumeOps(c: Config): nat { 2 + Repeat(c.dirs, DirOps(c)) }

  /** Nothing is below a path that is not there. */
  lemma {:induction false} NothingBelow(f: Contents, v: Path, p: Path)
    requires WellFormed(f) && v !in f.dirs && v <= p && p != v
    ensures p !in f.dirs && p !in f.files
  {
    if p in f.dirs || p in f.files { PrefixIsDirectory(f, p, v); }
  }

  lemma {:induction false} OneMoreFile(before: map<Path, nat>, dir: Path, k: nat, size: nat)
    ensures (before + AllOf(Children(dir, k), size))[dir + [Number(k)] := size] == before + AllOf(Children(dir, k + 1), size)
  {
  }

  /** One directory with its files. */
  method MakeDirectory(fs: FileSystem, c: Config, dir: Path) returns (ok: bool, ops: nat)
    requires fs.Valid()
    modifies fs
    ensures fs.Valid()
    ensures ok <==> dir !in old(fs.dirs) && dir !in old(fs.files) && Above(dir) in old(fs.dirs)
    ensures !ok ==> fs.View() == old(fs.View())
    ensures ok ==> fs.dirs == old(fs.dirs) + {dir} && ops == DirOps(c)
    ensures ok ==> fs.files == old(fs.files) + AllOf(Children(dir, c.files), FileSize(c))
  {
    ops := 0;
    ok := fs.Mkdir(dir);
    if !ok { return; }
    ops := 1;
    assert fs.files == old(fs.files) + AllOf(Children(dir, 0), FileSize(c));
    for k := 0 to c.files
      invariant fs.Valid() && ok && fs.dirs == old(fs.dirs) + {dir}
      invariant ops == 1 + Repeat(k, FileOps(c))
      invariant fs.files == old(fs.files) + AllOf(Children(dir, k), FileSize(c))
    {
      var filename := dir + [Number(k)];
      NothingBelow(old(fs.View()), dir, filename);
      ChildrenAre(dir, k, filename);
      OneMoreFile(old(fs.files), dir, k, FileSize(c));
      var done, more := MakeFile(fs, c, filename);
      ops := ops + more;
    }
  }

  /** What makedirs() needs for the directory of a volume. */
  ghost predicate CanMake(f: Contents, v: Path) {
    v !in f.dirs && forall q :: q <= v ==> q !in f.files
  }

  lemma {:induction false} OneMoreDirectory(before: Contents, v: Path, s: nat, f: nat, size: nat)
    ensures before.files + AllOf(TreeFiles(v, s, f), size) + AllOf(Children(v + [Number(s)], f), size)
         == before.files + AllOf(TreeFiles(v, s + 1, f), size)
    ensures before.dirs + Prefixes(v) + Children(v, s) + {v + [Number(s)]}
         == before.dirs + Prefixes(v) + Children(v, s + 1)
  {
  }

  /** The next subdirectory is not there yet. */
  lemma {:induction false} SubdirectoryIsNew(before: Contents, v: Path, s: nat, f: nat, now: Contents, dir: Path, size: nat)
    requires WellFormed(before) && v !in before.dirs && dir == v + [Number(s)]
    requires now.dirs == before.dirs + Prefixes(v) + Children(v, s)
    requires now.files == before.files + AllOf(TreeFiles(v, s, f), size)
    ensures dir !in now.dirs && dir !in now.files && Above(dir) in now.dirs
  {
    NothingBelow(before, v, dir);
    PrefixesAre(v, dir);
    ChildrenAre(v, s, dir);
    TreeFilesAre(v, s, f, dir);
    assert Above(dir) == v;
    PrefixesAre(v, v);
  }

  method MakeVolume(fs: FileSystem, c: Config, v: Path) returns (ok: bool, ops: nat)
    requires fs.Valid()
    modifies fs
    ensures fs.Valid() && (ok <==> CanMake(old(fs.View()), v))
    ensures !ok ==> fs.View() == old(fs.View())
    ensures ok ==> fs.dirs == old(fs.dirs) + Prefixes(v) + Children(v, c.dirs) && ops == VolumeOps(c)
    ensures ok ==> fs.files == old(fs.files) + AllOf(TreeFiles(v, c.dirs, c.files), FileSize(c))
  {
    ops := 0;
    ok := fs.Makedirs(v);
    if !ok { return; }
    ops := 2;
    assert fs.files == old(fs.files) + AllOf(TreeFiles(v, 0, c.files), FileSize(c));
    assert fs.dirs == old(fs.dirs) + Prefixes(v) + Children(v, 0);
    for s := 0 to c.dirs
      invariant fs.Valid() && ok && ops == 2 + Repeat(s, DirOps(c))
      invariant fs.dirs == old(fs.dirs) + Prefixes(v) + Children(v, s)
      invariant fs.files == old(fs.files) + AllOf(TreeFiles(v, s, c.files), FileSize(c))
    {
      var dir := v + [Number(s)];
      SubdirectoryIsNew(old(fs.View()), v, s, c.files, fs.View(), dir, FileSize(c));
      OneMoreDirectory(old(fs.View()), v, s, c.files, FileSize(c));
      var done, more := MakeDirectory(fs, c, dir);
      ops := ops + more;
    }
  }

  /** No volume's directory lies in or above another's: so for distinct base directories that exist. */
  ghost predicate Unrelated(c: Config) {
    forall i, j :: 0 <= i < |c.bases| && 0 <= j < |c.bases| && i != j ==> !(Volume(c, i) <= Volume(c, j))
  }

  /** Every volume can be made. */
  ghost predicate Ready(f: Contents, c: Config) {
    Unrelated(c) && forall i :: 0 <= i < |c.bases| ==> CanMake(f, Volume(c, i))
  }

  /** What the first n volumes add. */
  function MadeDirs(c: Config, n: nat): set<Path>
    requires n <= |c.bases|
  {
    if n == 0 then {} else MadeDirs(c, n - 1) + Prefixes(Volume(c, n - 1)) + Children(Volume(c, n - 1), c.dirs)
  }

  function MadeFiles(c: Config, n: nat): set<Path>
    requires n <= |c.bases|
  {
    if n == 0 then {} else MadeFiles(c, n - 1) + TreeFiles(Volume(c, n - 1), c.dirs, c.files)
  }

  lemma {:induction false} MadeDirsAre(c: Config, n: nat, p: Path)
    requires n <= |c.bases|
    ensures p in MadeDirs(c, n) <==> exists i :: 0 <= i < n && (p <= Volume(c, i) || p in Children(Volume(c, i), c.dirs))
  {
    if n > 0 {
      MadeDirsAre(c, n - 1, p);
      PrefixesAre(Volume(c, n - 1), p);
    }
  }

  lemma {:induction false} MadeFilesAre(c: Config, n: nat, p: Path)
    requires n <= |c.bases|
    ensures p in MadeFiles(c, n) <==> exists i :: 0 <= i < n && p in TreeFiles(Volume(c, i), c.dirs, c.files)
  {
    if n > 0 { MadeFilesAre(c, n - 1, p); }
  }

  /** Making some volumes does not get in the way of making another. */
  lemma {:induction false} StillReady(f: Contents, c: Config, n: nat, now: Contents, size: nat)
    requires Ready(f, c) && n < |c.bases|
    requires now.dirs == f.dirs + MadeDirs(c, n) && now.files == f.files + AllOf(MadeFiles(c, n), size)
    ensures CanMake(now, Volume(c, n))
  {
    var v := Volume(c, n);
    MadeDirsAre(c, n, v);
    forall i | 0 <= i < n ensures !(v <= Volume(c, i)) && v !in Children(Volume(c, i), c.dirs) {
      ChildrenAre(Volume(c, i), c.dirs, v);
      assert !(Volume(c, i) <= v);
    }
    forall q | q <= v ensures q !in now.files {
      MadeFilesAre(c, n, q);
      forall i | 0 <= i < n ensures q !in TreeFiles(Volume(c, i), c.dirs, c.files) {
        TreeFilesAre(Volume(c, i), c.dirs, c.files, q);
        assert !(Volume(c, i) <= v);
      }
    }
  }

  /** The state once the first n volumes are made. */
  function Made(f: Contents, c: Config, n: nat, size: nat): Contents
    requires n <= |c.bases|
  {
    Contents(f.dirs + MadeDirs(c, n), f.files + AllOf(MadeFiles(c, n), size))
  }

  lemma {:induction false} NextCanBeMade(f: Contents, c: Config, n: nat, size: nat, now: Contents)
    requires n < |c.bases| && now == Made(f, c, n, size)
    ensures Ready(f, c) ==> CanMake(now, Volume(c, n))
  {
    if Ready(f, c) { StillReady(f, c, n, now, size); }
  }

  /** Each of the first n volumes can be made when its turn comes. */
  ghost predicate CanMakeAll(f: Contents, c: Config, n: nat, size: nat)
    requires n <= |c.bases|
  {
    n == 0 || (CanMakeAll(f, c, n - 1, size) && CanMake(Made(f, c, n - 1, size), Volume(c, n - 1)))
  }

  lemma {:induction false} OneMoreCanBeMade(f: Contents, c: Config, n: nat, size: nat, now: Contents)
    requires n < |c.bases| && now == Made(f, c, n, size) && CanMakeAll(f, c, n, size) && CanMake(now, Volume(c, n))
    ensures CanMakeAll(f, c, n + 1, size)
  {
  }

  lemma {:induction false} NextVolume(f: Contents, c: Config, n: nat, size: nat, now: Contents, after: Contents)
    requires n < |c.bases| && now == Made(f, c, n, size)
    requires after.dirs == now.dirs + Prefixes(Volume(c, n)) + Children(Volume(c, n), c.dirs)
    requires after.files == now.files + AllOf(TreeFiles(Volume(c, n), c.dirs, c.files), size)
    ensures after == Made(f, c, n + 1, size)
  {
    assert after.dirs == f.dirs + MadeDirs(c, n + 1);
    assert after.files == f.files + AllOf(MadeFiles(c, n + 1), size);
  }

  /** So no file was in the way of a volume, and no volume's directory lies at or above one made before it, or is among
      the directories of its tree. */
  lemma {:induction false} MadeInOrder(f: Contents, c: Config, n: nat, size: nat, i: nat)
    requires n <= |c.bases| && CanMakeAll(f, c, n, size) && i < n
    ensures forall q :: q <= Volume(c, i) ==> q !in f.files
    ensures forall k :: 0 <= k < i ==>
              !(Volume(c, i) <= Volume(c, k)) && Volume(c, i) !in TreeDirs(Volume(c, k), c.dirs)
    decreases n
  {
    if i < n - 1 {
      MadeInOrder(f, c, n - 1, size, i);
    } else {
      var v := Volume(c, i);
      MadeDirsAre(c, i, v);
      assert v !in MadeDirs(c, i) && v <= v;
      forall q | q <= v ensures q !in f.files { assert q !in Made(f, c, i, size).files; }
    }
  }

  lemma {:induction false} NothingMade(f: Contents, c: Config, size: nat)
    ensures Made(f, c, 0, size) == f
  {
    assert Made(f, c, 0, size).dirs == f.dirs && Made(f, c, 0, size).files == f.files;
  }

  /** makethem() */
  method MakeThem(fs: FileSystem, c: Config) returns (ok: bool, ops: nat)
    requires fs.Valid()
    modifies fs
    ensures fs.Valid() && (Ready(old(fs.View()), c) ==> ok)
    ensures ok ==> CanMakeAll(old(fs.View()), c, |c.bases|, FileSize(c))
    ensures ok ==> ops == Repeat(|c.bases|, VolumeOps(c))
    ensures ok ==> fs.View() == Made(old(fs.View()), c, |c.bases|, FileSize(c))
  {
    ok, ops := true, 0;
    ghost var f, size := fs.View(), FileSize(c);
    NothingMade(f, c, size);
    for i := 0 to |c.bases|
      invariant fs.Valid() && ok && ops == Repeat(i, VolumeOps(c))
      invariant fs.View() == Made(f, c, i, size) && CanMakeAll(f, c, i, size)
    {
      ghost var now := fs.View();
      NextCanBeMade(f, c, i, size, now);
      var more;
      ok, more := MakeVolume(fs, c, Volume(c, i));
      if !ok { return; }
      OneMoreCanBeMade(f, c, i, size, now);
      NextVolume(f, c, i, size, now, fs.View());
      ops := ops + more;
    }
  }

  function FilePath(c: Config, i: nat, s: nat, k: nat): Path
    requires i < |c.bases|
  {
    c.bases[i] + [c.local, Number(s), Number(k)]
  }

  function DirPath(c: Config, i: nat, s: nat): Path
    requires i < |c.bases|
  {
    c.bases[i] + [c.local, Number(s)]
  }

  lemma {:induction false} FileOfTree(c: Config, i: nat, p: Path)
    requires i < |c.bases|
    ensures p in TreeFiles(Volume(c, i), c.dirs, c.files) <==>
              exists s, k :: 0 <= s < c.dirs && 0 <= k < c.files && p == FilePath(c, i, s, k)
  {
    var v := Volume(c, i);
    TreeFilesAre(v, c.dirs, c.files, p);
    if p in TreeFiles(v, c.dirs, c.files) {
      assert p == v + p[|v|..] == FilePath(c, i, p[|v|].n, p[|v| + 1].n);
    }
    forall s, k | 0 <= s < c.dirs && 0 <= k < c.files && p == FilePath(c, i, s, k)
      ensures p in TreeFiles(v, c.dirs, c.files)
    {
      assert p == v + [Number(s), Number(k)];
    }
  }

  lemma {:induction false} SubdirectoryOfTree(c: Config, i: nat, p: Path)
    requires i < |c.bases|
    ensures p in Children(Volume(c, i), c.dirs) <==> exists s :: 0 <= s < c.dirs && p == DirPath(c, i, s)
  {
    var v := Volume(c, i);
    ChildrenAre(v, c.dirs, p);
    if p in Children(v, c.dirs) { assert p == v + p[|v|..] == DirPath(c, i, p[|v|].n); }
    forall s | 0 <= s < c.dirs && p == DirPath(c, i, s) ensures p in Children(v, c.dirs) {
      assert p == v + [Number(s)];
    }
  }

  /** The files of the first n volumes, path by path. */
  lemma {:induction false} MadeFilesExactly(c: Config, n: nat, p: Path)
    requires n <= |c.bases|
    ensures p in MadeFiles(c, n) <==>
              exists i, s, k :: 0 <= i < n && 0 <= s < c.dirs && 0 <= k < c.files && p == FilePath(c, i, s, k)
  {
    if n > 0 {
      MadeFilesExactly(c, n - 1, p);
      FileOfTree(c, n - 1, p);
    }
  }

  lemma {:induction false} MadeDirsExactly(c: Config, n: nat, p: Path)
    requires n <= |c.bases|
    ensures p in MadeDirs(c, n) <==>
              (exists i :: 0 <= i < n && p <= Volume(c, i))
              || exists i, s :: 0 <= i < n && 0 <= s < c.dirs && p == DirPath(c, i, s)
  {
    if n > 0 {
      MadeDirsExactly(c, n - 1, p);
      PrefixesAre(Volume(c, n - 1), p);
      SubdirectoryOfTree(c, n - 1, p);
    }
  }

  /** What makethem() makes, path by path: the volumes with all directories above them, the numbered subdirectories,
      and in each the numbered files, all of the size of their blocks together. */
  lemma {:induction false} MadeExactly(f: Contents, c: Config, made: Contents, p: Path)
    requires made == Made(f, c, |c.bases|, FileSize(c))
    ensures p in made.dirs <==>
              p in f.dirs || (exists i :: 0 <= i < |c.bases| && p <= Volume(c, i))
              || exists i, s :: 0 <= i < |c.bases| && 0 <= s < c.dirs && p == DirPath(c, i, s)
    ensures p in made.files <==>
              p in f.files
              || exists i, s, k :: 0 <= i < |c.bases| && 0 <= s < c.dirs && 0 <= k < c.files && p == FilePath(c, i, s, k)
    ensures forall i, s, k :: 0 <= i < |c.bases| && 0 <= s < c.dirs && 0 <= k < c.files && p == FilePath(c, i, s, k) ==>
              made.files[p] == c.blocks * c.blockSize
  {
    RepeatIs(c.blocks, c.blockSize);
    MadeDirsExactly(c, |c.bases|, p);
    MadeFilesExactly(c, |c.bases|, p);
  }

  // ---------------------------------------------------------------------------------------------
  // Reading

  /** One directory of files; fails at the first that is missing. */
  method ReadDirectory(fs: FileSystem, c: Config, dir: Path) returns (ok: bool, ops: nat)
    ensures ok <==> Children(dir, c.files) <= fs.files.Keys
    ensures ok ==> ops == DirOps(c)
  {
    ok, ops := true, 1;
    for k := 0 to c.files
      invariant ok && ops == 1 + Repeat(k, FileOps(c)) && Children(dir, k) <= fs.files.Keys
    {
      var filename := dir + [Number(k)];
      ok := fs.IsFile(filename);
      if !ok {
        ChildrenAre(dir, c.files, filename);
        return;
      }
      ops := ops + 1;
      for block := 0 to c.blocks
        invariant ops == 1 + Repeat(k, FileOps(c)) + 1 + block
      {
        ops := ops + 1;
      }
    }
  }

  lemma {:induction false} TreeFilesGrow(v: Path, s: nat, d: nat, f: nat)
    requires s < d
    ensures Children(v + [Number(s)], f) <= TreeFiles(v, d, f)
  {
    if s < d - 1 { TreeFilesGrow(v, s, d - 1, f); }
  }

  method ReadVolume(fs: FileSystem, c: Config, v: Path) returns (ok: bool, ops: nat)
    ensures ok <==> TreeFiles(v, c.dirs, c.files) <= fs.files.Keys
    ensures ok ==> ops == VolumeOps(c)
  {
    ok, ops := true, 2;
    for s := 0 to c.dirs
      invariant ok && ops == 2 + Repeat(s, DirOps(c)) && TreeFiles(v, s, c.files) <= fs.files.Keys
    {
      var more;
      ok, more := ReadDirectory(fs, c, v + [Number(s)]);
      if !ok {
        TreeFilesGrow(v, s, c.dirs, c.files);
        return;
      }
      ops := ops + more;
    }
  }

  lemma {:induction false} MadeFilesGrow(c: Config, i: nat, n: nat)
    requires i < n <= |c.bases|
    ensures TreeFiles(Volume(c, i), c.dirs, c.files) <= MadeFiles(c, n)
  {
    if i < n - 1 { MadeFilesGrow(c, i, n - 1); }
  }

  /** readthem() with oktofail off. */
  method ReadThem(fs: FileSystem, c: Config) returns (ok: bool, ops: nat)
    ensures ok <==> MadeFiles(c, |c.bases|) <= fs.files.Keys
    ensures ok ==> ops == Repeat(|c.bases|, VolumeOps(c))
  {
    ok, ops := true, 0;
    for i := 0 to |c.bases|
      invariant ok && ops == Repeat(i, VolumeOps(c)) && MadeFiles(c, i) <= fs.files.Keys
    {
      var more;
      ok, more := ReadVolume(fs, c, Volume(c, i));
      if !ok {
        MadeFilesGrow(c, i, |c.bases|);
        return;
      }
      ops := ops + more;
    }
  }

  // ---------------------------------------------------------------------------------------------
  // Removing

  /** The directory holds the files it should, and nothing else. */
  ghost predicate HoldsFiles(f: Contents, dir: Path, n: nat) {
    && dir != [] && dir in f.dirs && Children(dir, n) <= f.files.Keys
    && (forall p :: p in f.dirs && p != [] ==> Parent(p) != dir)
    && (forall p :: p in f.files && p != [] && Parent(p) == dir ==> p in Children(dir, n))
  }

  /** Unlink the files, then remove the directory. */
  method RemoveDirectory(fs: FileSystem, c: Config, dir: Path) returns (ok: bool, ops: nat)
    requires fs.Valid()
    modifies fs
    ensures fs.Valid() && (HoldsFiles(old(fs.View()), dir, c.files) ==> ok)
    ensures ok ==> fs.dirs == old(fs.dirs) - {dir} && fs.files == old(fs.files) - Children(dir, c.files)
    ensures ok ==> ops == 1 + c.files
  {
    ok, ops := true, 0;
    assert fs.files == old(fs.files) - Children(dir, 0);
    for k := 0 to c.files
      invariant fs.Valid() && ok && ops == k
      invariant fs.dirs == old(fs.dirs) && fs.files == old(fs.files) - Children(dir, k)
    {
      var filename := dir + [Number(k)];
      ChildrenAre(dir, k, filename);
      ChildrenAre(dir, c.files, filename);
      ok := fs.Unlink(filename);
      if !ok { return; }
      assert old(fs.files) - Children(dir, k) - {filename} == old(fs.files) - Children(dir, k + 1);
      ops := ops + 1;
    }
    ok := fs.Rmdir(dir);
    if !ok { return; }
    ops := ops + 1;
  }

  /** The tree of a volume is there, and nothing else is at or below its root. */
  ghost predicate HoldsTree(f: Contents, v: Path, d: nat, n: nat) {
    && v != [] && TreeDirs(v, d) <= f.dirs && TreeFiles(v, d, n) <= f.files.Keys
    && (forall p :: p in f.dirs && v <= p ==> p in TreeDirs(v, d))
    && (forall p :: p in f.files && v <= p ==> p in TreeFiles(v, d, n))
  }

  lemma {:induction false} SubdirectoryHolds(f: Contents, v: Path, s: nat, d: nat, n: nat, now: Contents)
    requires WellFormed(f) && HoldsTree(f, v, d, n) && s < d
    requires now.dirs == f.dirs - Children(v, s) && now.files == f.files - TreeFiles(v, s, n)
    ensures HoldsFiles(now, v + [Number(s)], n)
  {
    var dir := v + [Number(s)];
    ChildrenAre(v, s, dir);
    ChildrenAre(v, d, dir);
    TreeFilesGrow(v, s, d, n);
    forall p | p in Children(dir, n) ensures p in now.files {
      ChildrenAre(dir, n, p);
      TreeFilesAre(v, s, n, p);
    }
    forall p | p in now.dirs && p != [] ensures Parent(p) != dir {
      if Parent(p) == dir {
        assert v <= p;
        ChildrenAre(v, d, p);
      }
    }
    forall p | p in now.files && p != [] && Parent(p) == dir ensures p in Children(dir, n) {
      assert v <= p;
      TreeFilesAre(v, d, n, p);
      ChildrenAre(dir, n, p);
      assert p[..|dir|] == dir && p[|v|] == Number(s);
    }
  }

  lemma {:induction false} RootIsEmpty(f: Contents, v: Path, d: nat, n: nat, now: Contents)
    requires WellFormed(f) && HoldsTree(f, v, d, n)
    requires now.dirs == f.dirs - Children(v, d) && now.files == f.files - TreeFiles(v, d, n)
    ensures v in now.dirs && Empty(now, v)
  {
    ChildrenAre(v, d, v);
    forall p | p in now.dirs && p != [] ensures Parent(p) != v { ParentIsPrefix(p); }
    forall p | p in now.files && p != [] ensures Parent(p) != v { ParentIsPrefix(p); }
  }

  lemma {:induction false} ParentIsPrefix(p: Path)
    requires p != []
    ensures Parent(p) <= p
  {
  }

  lemma {:induction false} OneLessDirectory(f: Contents, v: Path, s: nat, n: nat)
    ensures f.dirs - Children(v, s) - {v + [Number(s)]} == f.dirs - Children(v, s + 1)
    ensures f.files - TreeFiles(v, s, n) - Children(v + [Number(s)], n) == f.files - TreeFiles(v, s + 1, n)
  {
  }

  method RemoveVolume(fs: FileSystem, c: Config, v: Path) returns (ok: bool, ops: nat)
    requires fs.Valid()
    modifies fs
    ensures fs.Valid() && (HoldsTree(old(fs.View()), v, c.dirs, c.files) ==> ok)
    ensures ok ==> fs.dirs == old(fs.dirs) - TreeDirs(v, c.dirs)
    ensures ok ==> fs.files == old(fs.files) - TreeFiles(v, c.dirs, c.files)
    ensures ok ==> ops == 1 + Repeat(c.dirs, 1 + c.files)
  {
    ok, ops := true, 0;
    assert fs.files == old(fs.files) - TreeFiles(v, 0, c.files) && fs.dirs == old(fs.dirs) - Children(v, 0);
    for s := 0 to c.dirs
      invariant fs.Valid() && ok && ops == Repeat(s, 1 + c.files)
      invariant fs.dirs == old(fs.dirs) - Children(v, s) && fs.files == old(fs.files) - TreeFiles(v, s, c.files)
    {
      var dir := v + [Number(s)];
      if HoldsTree(old(fs.View()), v, c.dirs, c.files) {
        SubdirectoryHolds(old(fs.View()), v, s, c.dirs, c.files, fs.View());
      }
      var more;
      ok, more := RemoveDirectory(fs, c, dir);
      if !ok { return; }
      ops := ops + more;
      OneLessDirectory(old(fs.View()), v, s, c.files);
    }
    if HoldsTree(old(fs.View()), v, c.dirs, c.files) {
      RootIsEmpty(old(fs.View()), v, c.dirs, c.files, fs.View());
    }
    ok := fs.Rmdir(v);
    if !ok { return; }
    ops := ops + 1;
  }

  function RemoveOps(c: Config): nat { 1 + Repeat(c.dirs, 1 + c.files) }

  /** The directories of the first n trees; MadeFiles are their files. */
  function AllTreeDirs(c: Config, n: nat): set<Path>
    requires n <= |c.bases|
  {
    if n == 0 then {} else AllTreeDirs(c, n - 1) + TreeDirs(Volume(c, n - 1), c.dirs)
  }

  lemma {:induction false} AllTreeDirsAre(c: Config, n: nat, p: Path)
    requires n <= |c.bases|
    ensures p in AllTreeDirs(c, n) <==> exists i :: 0 <= i < n && p in TreeDirs(Volume(c, i), c.dirs)
  {
    if n > 0 { AllTreeDirsAre(c, n - 1, p); }
  }

  /** All trees are there and hold nothing else. */
  ghost predicate HoldsAll(f: Contents, c: Config) {
    Unrelated(c) && forall i :: 0 <= i < |c.bases| ==> HoldsTree(f, Volume(c, i), c.dirs, c.files)
  }

  lemma {:induction false} Comparable(v: Path, w: Path, p: Path)
    requires v <= p && w <= p
    ensures v <= w || w <= v
  {
    if |v| <= |w| { assert v == p[..|v|] && w == p[..|w|]; } else { assert v == p[..|v|] && w == p[..|w|]; }
  }

  /** Nothing of one tree belongs to another. */
  lemma {:induction false} TreesApart(c: Config, i: nat, n: nat, p: Path)
    requires Unrelated(c) && n <= i < |c.bases| && Volume(c, i) <= p
    ensures p !in AllTreeDirs(c, n) && p !in MadeFiles(c, n)
  {
    AllTreeDirsAre(c, n, p);
    MadeFilesAre(c, n, p);
    forall j | 0 <= j < n
      ensures p !in TreeDirs(Volume(c, j), c.dirs) && p !in TreeFiles(Volume(c, j), c.dirs, c.files)
    {
      if p in TreeDirs(Volume(c, j), c.dirs) || p in TreeFiles(Volume(c, j), c.dirs, c.files) {
        TreeIsBelow(Volume(c, j), c.dirs, c.files, p);
        Comparable(Volume(c, i), Volume(c, j), p);
      }
    }
  }

  lemma {:induction false} StillHolds(f: Contents, c: Config, n: nat, now: Contents)
    requires HoldsAll(f, c) && n < |c.bases|
    requires now.dirs == f.dirs - AllTreeDirs(c, n) && now.files == f.files - MadeFiles(c, n)
    ensures HoldsTree(now, Volume(c, n), c.dirs, c.files)
  {
    var v := Volume(c, n);
    forall p | p in TreeDirs(v, c.dirs) || p in TreeFiles(v, c.dirs, c.files)
      ensures p !in AllTreeDirs(c, n) && p !in MadeFiles(c, n)
    {
      TreeIsBelow(v, c.dirs, c.files, p);
      TreesApart(c, n, n, p);
    }
    assert HoldsTree(f, v, c.dirs, c.files);
  }

  lemma {:induction false} NextHolds(f: Contents, c: Config, n: nat, now: Contents)
    requires n < |c.bases|
    requires now.dirs == f.dirs - AllTreeDirs(c, n) && now.files == f.files - MadeFiles(c, n)
    ensures HoldsAll(f, c) ==> HoldsTree(now, Volume(c, n), c.dirs, c.files)
  {
    if HoldsAll(f, c) { StillHolds(f, c, n, now); }
  }

  lemma {:induction false} OneLessVolume(f: Contents, c: Config, i: nat)
    requires i < |c.bases|
    ensures f.dirs - AllTreeDirs(c, i) - TreeDirs(Volume(c, i), c.dirs) == f.dirs - AllTreeDirs(c, i + 1)
    ensures f.files - MadeFiles(c, i) - TreeFiles(Volume(c, i), c.dirs, c.files) == f.files - MadeFiles(c, i + 1)
  {
  }

  /** When a volume's directory could be removed, all below it had been removed before. */
  ghost predicate RemovedInOrder(f: Contents, c: Config, n: nat)
    requires n <= |c.bases|
  {
    forall i, j :: 0 <= i < n && 0 <= j < |c.bases| && Volume(c, i) <= Volume(c, j) ==>
      Volume(c, j) !in f.dirs || Volume(c, j) in AllTreeDirs(c, i + 1)
  }

  lemma {:induction false} NextInRemovalOrder(f: Contents, c: Config, n: nat, now: Contents)
    requires n < |c.bases| && RemovedInOrder(f, c, n) && WellFormed(now)
    requires now.dirs == f.dirs - AllTreeDirs(c, n + 1)
    ensures RemovedInOrder(f, c, n + 1)
  {
    var v := Volume(c, n);
    assert v !in now.dirs;
    forall j | 0 <= j < |c.bases| && v <= Volume(c, j)
      ensures Volume(c, j) !in f.dirs || Volume(c, j) in AllTreeDirs(c, n + 1)
    {
      if Volume(c, j) != v { NothingBelow(now, v, Volume(c, j)); }
    }
  }

  /** removethem() with oktofail off. */
  method RemoveThem(fs: FileSystem, c: Config) returns (ok: bool, ops: nat)
    requires fs.Valid()
    modifies fs
    ensures fs.Valid() && (HoldsAll(old(fs.View()), c) ==> ok)
    ensures ok ==> RemovedInOrder(old(fs.View()), c, |c.bases|)
    ensures ok ==> ops == Repeat(|c.bases|, RemoveOps(c))
    ensures ok ==> fs.dirs == old(fs.dirs) - AllTreeDirs(c, |c.bases|)
    ensures ok ==> fs.files == old(fs.files) - MadeFiles(c, |c.bases|)
  {
    ok, ops := true, 0;
    assert fs.files == old(fs.files) - MadeFiles(c, 0) && fs.dirs == old(fs.dirs) - AllTreeDirs(c, 0);
    for i := 0 to |c.bases|
      invariant fs.Valid() && ok && ops == Repeat(i, RemoveOps(c))
      invariant fs.dirs == old(fs.dirs) - AllTreeDirs(c, i) && fs.files == old(fs.files) - MadeFiles(c, i)
      invariant RemovedInOrder(old(fs.View()), c, i)
    {
      var v := Volume(c, i);
      NextHolds(old(fs.View()), c, i, fs.View());
      var more;
      ok, more := RemoveVolume(fs, c, v);
      if !ok { return; }
      ops := ops + more;
      OneLessVolume(old(fs.View()), c, i);
      NextInRemovalOrder(old(fs.View()), c, i, fs.View());
    }
  }

  // ---------------------------------------------------------------------------------------------
  // The clean-up before the job: removethem() with oktofail on

  /** remdir(dirname, True) */
  method RemoveDirAnyway(fs: FileSystem, p: Path)
    requires fs.Valid() && p != []
    modifies fs
    ensures fs.Valid() && fs.View() == if p in old(fs.dirs) then Without(old(fs.View()), p) else old(fs.View())
  {
    var ok := fs.Rmdir(p);
    if !ok {
      fs.Rmtree(p);
    } else {
      EmptyMeansAlone(old(fs.View()), p);
    }
  }

  /** Below an empty directory there is nothing. */
  lemma {:induction false} EmptyMeansAlone(f: Contents, p: Path)
    requires WellFormed(f) && p in f.dirs && p != [] && Empty(f, p)
    ensures Without(f, p).dirs == f.dirs - {p} && Without(f, p).files == f.files
  {
    forall q | (q in f.dirs || q in f.files) && p <= q && q != p ensures false {
      var child := q[..|p| + 1];
      assert child <= q && Parent(child) == p;
      if child != q { PrefixIsDirectory(f, q, child); }
    }
    assert p !in f.files;
  }

  /** Two states that differ at most at or below v. */
  ghost predicate SameElsewhere(f: Contents, g: Contents, v: Path) {
    Without(f, v) == Without(g, v)
  }

  lemma {:induction false} BelowBelow(f: Contents, v: Path, dir: Path)
    requires v <= dir
    ensures SameElsewhere(Without(f, dir), f, v)
  {
    var a, b := Without(Without(f, dir), v), Without(f, v);
    assert a.dirs == b.dirs && a.files == b.files;
  }

  /** One subdirectory. `_isdir(subdir)` looks at the number of the subdirectory, which os.stat() takes for a file
      descriptor: `isDirectory` is whether that descriptor is open on a directory. */
  method CleanSubdirectory(fs: FileSystem, c: Config, v: Path, s: nat, isDirectory: bool)
    requires fs.Valid()
    modifies fs
    ensures fs.Valid() && SameElsewhere(fs.View(), old(fs.View()), v)
    ensures v in old(fs.dirs) ==> v in fs.dirs
  {
    var dir := v + [Number(s)];
    if !isDirectory { return; }
    for k := 0 to c.files
      invariant fs.Valid() && SameElsewhere(fs.View(), old(fs.View()), v) && fs.dirs == old(fs.dirs)
    {
      var filename := dir + [Number(k)];
      var present := fs.IsFile(filename);
      if present {
        ghost var before := fs.View();
        var done := fs.Unlink(filename);
        FileBelow(before, v, filename);
      }
    }
    ghost var before := fs.View();
    RemoveDirAnyway(fs, dir);
    BelowBelow(before, v, dir);
  }

  lemma {:induction false} FileBelow(f: Contents, v: Path, p: Path)
    requires v <= p
    ensures SameElsewhere(Contents(f.dirs, f.files - {p}), f, v)
  {
    var a, b := Without(Contents(f.dirs, f.files - {p}), v), Without(f, v);
    assert a.dirs == b.dirs && a.files == b.files;
  }

  /** One volume: whatever the descriptors are, the whole tree goes. */
  method CleanVolume(fs: FileSystem, c: Config, v: Path, open: set<nat>)
    requires fs.Valid() && v != []
    modifies fs
    ensures fs.Valid() && fs.View() == if v in old(fs.dirs) then Without(old(fs.View()), v) else old(fs.View())
  {
    var there := fs.IsDir(v);
    if !there { return; }
    for s := 0 to c.dirs
      invariant fs.Valid() && SameElsewhere(fs.View(), old(fs.View()), v) && v in fs.dirs
    {
      CleanSubdirectory(fs, c, v, s, s in open);
    }
    RemoveDirAnyway(fs, v);
  }

  /** The state without the trees of the first n volumes. */
  function Cleaned(f: Contents, c: Config, n: nat): Contents
    requires n <= |c.bases|
  {
    if n == 0 then f
    else
      var g := Cleaned(f, c, n - 1);
      if Volume(c, n - 1) in g.dirs then Without(g, Volume(c, n - 1)) else g
  }

  method CleanUp(fs: FileSystem, c: Config, open: set<nat>)
    requires fs.Valid()
    modifies fs
    ensures fs.Valid() && fs.View() == Cleaned(old(fs.View()), c, |c.bases|)
  {
    for i := 0 to |c.bases|
      invariant fs.Valid() && fs.View() == Cleaned(old(fs.View()), c, i)
    {
      CleanVolume(fs, c, Volume(c, i), open);
    }
  }

  // ---------------------------------------------------------------------------------------------
  // Main results

  /** What has been made can be removed: the trees hold what they should, and nothing else. */
  lemma {:induction false} MadeHolds(f: Contents, c: Config, now: Contents, size: nat)
    requires WellFormed(f) && Ready(f, c)
    requires now.dirs == f.dirs + MadeDirs(c, |c.bases|)
    requires now.files == f.files + AllOf(MadeFiles(c, |c.bases|), size)
    ensures HoldsAll(now, c)
  {
    forall i | 0 <= i < |c.bases| ensures HoldsTree(now, Volume(c, i), c.dirs, c.files) {
      MadeTree(f, c, now, size, i);
    }
  }

  lemma {:induction false} MadeTree(f: Contents, c: Config, now: Contents, size: nat, i: nat)
    requires WellFormed(f) && Ready(f, c) && i < |c.bases|
    requires now.dirs == f.dirs + MadeDirs(c, |c.bases|)
    requires now.files == f.files + AllOf(MadeFiles(c, |c.bases|), size)
    ensures HoldsTree(now, Volume(c, i), c.dirs, c.files)
  {
    var v, n := Volume(c, i), |c.bases|;
    assert CanMake(f, v);
    MadeFilesGrow(c, i, n);
    forall p | p in TreeDirs(v, c.dirs) ensures p in now.dirs { MadeDirsAre(c, n, p); assert v <= v; }
    forall p | p in now.dirs && v <= p ensures p in TreeDirs(v, c.dirs) {
      MadeDirsAre(c, n, p);
      if p != v { NothingBelow(f, v, p); }
      if p in MadeDirs(c, n) {
        var j :| 0 <= j < n && (p <= Volume(c, j) || p in Children(Volume(c, j), c.dirs));
        DirectoryOfTree(c, i, j, p);
      }
    }
    forall p | p in now.files && v <= p ensures p in TreeFiles(v, c.dirs, c.files) {
      MadeFilesAre(c, n, p);
      if p != v { NothingBelow(f, v, p); }
      assert p !in f.files;
      var j :| 0 <= j < n && p in TreeFiles(Volume(c, j), c.dirs, c.files);
      TreeIsBelow(Volume(c, j), c.dirs, c.files, p);
      Comparable(v, Volume(c, j), p);
    }
  }

  lemma {:induction false} DirectoryOfTree(c: Config, i: nat, j: nat, p: Path)
    requires Unrelated(c) && i < |c.bases| && j < |c.bases| && Volume(c, i) <= p
    requires p <= Volume(c, j) || p in Children(Volume(c, j), c.dirs)
    ensures p in TreeDirs(Volume(c, i), c.dirs)
  {
    var v, w := Volume(c, i), Volume(c, j);
    if p <= w {
      assert v <= w;
      assert i == j;
      assert p == v;
    } else {
      ChildrenAre(w, c.dirs, p);
      Comparable(v, w, p);
    }
  }

  /** Making and removing again: what is left is what was there, and the base directories. */
  lemma {:induction false} MadeAndRemoved(f: Contents, c: Config, p: Path)
    requires WellFormed(f) && Ready(f, c)
    ensures p in (f.dirs + MadeDirs(c, |c.bases|)) - AllTreeDirs(c, |c.bases|)
       <==> p in f.dirs || exists i :: 0 <= i < |c.bases| && p <= c.bases[i]
    ensures p in MadeFiles(c, |c.bases|) ==> p !in f.files
  {
    var n := |c.bases|;
    MadeDirsAre(c, n, p);
    AllTreeDirsAre(c, n, p);
    MadeFilesAre(c, n, p);
    if p in f.dirs || p in f.files {
      forall i | 0 <= i < n
        ensures p !in TreeDirs(Volume(c, i), c.dirs) && p !in TreeFiles(Volume(c, i), c.dirs, c.files)
      {
        OldIsNotOfTree(f, c, i, p);
      }
    }
    forall i | 0 <= i < n ensures p <= c.bases[i] ==> p !in AllTreeDirs(c, n) && p <= Volume(c, i) {
      if p <= c.bases[i] { BaseIsNotOfTree(c, i, p); }
    }
    forall i | 0 <= i < n && p <= Volume(c, i) ensures p <= c.bases[i] || p == Volume(c, i) {
      if |p| <= |c.bases[i]| { assert p <= c.bases[i]; }
    }
  }

  lemma {:induction false} OldIsNotOfTree(f: Contents, c: Config, i: nat, p: Path)
    requires WellFormed(f) && Ready(f, c) && i < |c.bases| && (p in f.dirs || p in f.files)
    ensures p !in TreeDirs(Volume(c, i), c.dirs) && p !in TreeFiles(Volume(c, i), c.dirs, c.files)
  {
    var v := Volume(c, i);
    assert CanMake(f, v);
    if p in TreeDirs(v, c.dirs) || p in TreeFiles(v, c.dirs, c.files) {
      TreeIsBelow(v, c.dirs, c.files, p);
      if p != v { NothingBelow(f, v, p); }
    }
  }

  lemma {:induction false} BaseIsNotOfTree(c: Config, i: nat, p: Path)
    requires Unrelated(c) && i < |c.bases| && p <= c.bases[i]
    ensures p !in AllTreeDirs(c, |c.bases|) && p <= Volume(c, i)
  {
    AllTreeDirsAre(c, |c.bases|, p);
    forall j | 0 <= j < |c.bases| ensures p !in TreeDirs(Volume(c, j), c.dirs) {
      RootOfTreeAbove(c, i, j, p);
    }
  }

  lemma {:induction false} RootOfTreeAbove(c: Config, i: nat, j: nat, p: Path)
    requires i < |c.bases| && j < |c.bases| && p <= c.bases[i]
    ensures p in TreeDirs(Volume(c, j), c.dirs) ==> Volume(c, j) <= c.bases[i] && Volume(c, j) <= Volume(c, i)
  {
    if p in TreeDirs(Volume(c, j), c.dirs) { TreeIsBelow(Volume(c, j), c.dirs, c.files, p); }
  }

  lemma {:induction false} AboveVolume(base: Path, other: Path, local: Component)
    ensures base + [local] <= other + [local] ==> base == other || base + [local] <= other
  {
    var v, w := base + [local], other + [local];
    if v <= w && |v| == |w| {
      assert v[..|base|] == base && w[..|other|] == other;
    }
  }

  /** Distinct base directories that exist, none of them with this process's directory in it: all is ready. */
  lemma {:induction false} ReadyIfBasesExist(f: Contents, c: Config)
    requires WellFormed(f)
    requires forall i, j :: 0 <= i < j < |c.bases| ==> c.bases[i] != c.bases[j]
    requires forall i :: 0 <= i < |c.bases| ==>
               c.bases[i] in f.dirs && Volume(c, i) !in f.dirs && Volume(c, i) !in f.files
    ensures Ready(f, c)
  {
    forall i, j | 0 <= i < |c.bases| && 0 <= j < |c.bases| && i != j ensures !(Volume(c, i) <= Volume(c, j)) {
      AboveVolume(c.bases[i], c.bases[j], c.local);
      if Volume(c, i) <= c.bases[j] && Volume(c, i) != c.bases[j] { PrefixIsDirectory(f, c.bases[j], Volume(c, i)); }
    }
    forall i | 0 <= i < |c.bases| ensures CanMake(f, Volume(c, i)) {
      forall q | q <= Volume(c, i) ensures q !in f.files {
        if q != Volume(c, i) {
          assert q <= c.bases[i];
          if q != c.bases[i] { PrefixIsDirectory(f, c.bases[i], q); }
        }
      }
    }
  }

  /** The base directories and all directories above them. */
  function BasePrefixes(c: Config, n: nat): set<Path>
    requires n <= |c.bases|
  {
    if n == 0 then {} else BasePrefixes(c, n - 1) + Prefixes(c.bases[n - 1])
  }

  lemma {:induction false} BasePrefixesAre(c: Config, n: nat, p: Path)
    requires n <= |c.bases|
    ensures p in BasePrefixes(c, n) <==> exists i :: 0 <= i < n && p <= c.bases[i]
  {
    if n > 0 {
      BasePrefixesAre(c, n - 1, p);
      PrefixesAre(c.bases[n - 1], p);
    }
  }

  /** What is left of making and removing: the base directories. */
  lemma {:induction false} DirectoriesLeft(f: Contents, c: Config)
    requires WellFormed(f) && Ready(f, c)
    ensures (f.dirs + MadeDirs(c, |c.bases|)) - AllTreeDirs(c, |c.bases|) == f.dirs + BasePrefixes(c, |c.bases|)
  {
    var a := (f.dirs + MadeDirs(c, |c.bases|)) - AllTreeDirs(c, |c.bases|);
    var b := f.dirs + BasePrefixes(c, |c.bases|);
    forall p ensures p in a <==> p in b {
      MadeAndRemoved(f, c, p);
      BasePrefixesAre(c, |c.bases|, p);
    }
  }

  lemma {:induction false} FilesLeft(f: Contents, c: Config, size: nat)
    requires WellFormed(f) && Ready(f, c)
    ensures (f.files + AllOf(MadeFiles(c, |c.bases|), size)) - MadeFiles(c, |c.bases|) == f.files
  {
    forall p | p in MadeFiles(c, |c.bases|) ensures p !in f.files { MadeAndRemoved(f, c, p); }
  }

  /** What the success of making and removing tells. */
  lemma {:induction false} OnlyIfReady(f: Contents, c: Config, size: nat)
    requires CanMakeAll(f, c, |c.bases|, size) && RemovedInOrder(Made(f, c, |c.bases|, size), c, |c.bases|)
    ensures Unrelated(c) && forall i, q :: 0 <= i < |c.bases| && q <= c.bases[i] ==> q !in f.files
  {
    var n := |c.bases|;
    forall i, j | 0 <= i < n && 0 <= j < n && i != j ensures !(Volume(c, i) <= Volume(c, j)) {
      if i < j {
        LaterIsApart(f, c, size, i, j);
      } else {
        MadeInOrder(f, c, n, size, i);
      }
    }
    forall i, q | 0 <= i < n && q <= c.bases[i] ensures q !in f.files {
      MadeInOrder(f, c, n, size, i);
      assert q <= Volume(c, i);
    }
  }

  lemma {:induction false} LaterIsApart(f: Contents, c: Config, size: nat, i: nat, j: nat)
    requires CanMakeAll(f, c, |c.bases|, size) && RemovedInOrder(Made(f, c, |c.bases|, size), c, |c.bases|)
    requires i < j < |c.bases|
    ensures !(Volume(c, i) <= Volume(c, j))
  {
    MadeVolume(f, c, size, j);
    NotOfEarlierTree(f, c, size, i, j);
  }

  lemma {:induction false} MadeVolume(f: Contents, c: Config, size: nat, j: nat)
    requires j < |c.bases|
    ensures Volume(c, j) in Made(f, c, |c.bases|, size).dirs
  {
    assert Volume(c, j) <= Volume(c, j);
    MadeDirsAre(c, |c.bases|, Volume(c, j));
  }

  lemma {:induction false} NotOfEarlierTree(f: Contents, c: Config, size: nat, i: nat, j: nat)
    requires CanMakeAll(f, c, |c.bases|, size) && i < j < |c.bases|
    ensures Volume(c, j) !in AllTreeDirs(c, i + 1)
  {
    MadeInOrder(f, c, |c.bases|, size, j);
    AllTreeDirsAre(c, i + 1, Volume(c, j));
  }

  /** Nothing is added exactly if the base directories were there before. */
  lemma {:induction false} NothingAdded(f: Contents, c: Config)
    requires WellFormed(f)
    ensures f.dirs + BasePrefixes(c, |c.bases|) == f.dirs <==> forall i :: 0 <= i < |c.bases| ==> c.bases[i] in f.dirs
  {
    var n := |c.bases|;
    if forall i :: 0 <= i < n ==> c.bases[i] in f.dirs {
      forall p | p in BasePrefixes(c, n) ensures p in f.dirs {
        BasePrefixesAre(c, n, p);
        var i :| 0 <= i < n && p <= c.bases[i];
        if p != c.bases[i] { PrefixIsDirectory(f, c.bases[i], p); }
      }
    }
    forall i | 0 <= i < n ensures c.bases[i] in f.dirs + BasePrefixes(c, n) {
      BasePrefixesAre(c, n, c.bases[i]);
      assert c.bases[i] <= c.bases[i];
    }
  }

  /** Create, read, remove. If the volumes can be made, no call fails, every rmdir meets an empty directory, and the
      file system is as before, except for base directories that had to be made. */
  method RoundTrip(fs: FileSystem, c: Config) returns (ok: bool, created: nat, done: nat, removed: nat)
    requires fs.Valid()
    modifies fs
    ensures fs.Valid() && (Ready(old(fs.View()), c) ==> ok)
    ensures Ready(old(fs.View()), c) ==>
              fs.View() == Contents(old(fs.dirs) + BasePrefixes(c, |c.bases|), old(fs.files))
    ensures Ready(old(fs.View()), c) ==>
              (fs.View() == old(fs.View()) <==> forall i :: 0 <= i < |c.bases| ==> c.bases[i] in old(fs.dirs))
    ensures ok ==> Unrelated(c) && forall i, q :: 0 <= i < |c.bases| && q <= c.bases[i] ==> q !in old(fs.files)
    ensures ok ==> created == done == |c.bases| * (2 + c.dirs * (1 + c.files * (1 + c.blocks)))
    ensures ok ==> removed == |c.bases| * (1 + c.dirs * (1 + c.files))
  {
    ghost var before := fs.View();
    created, done, removed := 0, 0, 0;
    ok, created := MakeThem(fs, c);
    if !ok { return; }
    ghost var made := fs.View();
    if Ready(before, c) {
      MadeHolds(before, c, made, FileSize(c));
      DirectoriesLeft(before, c);
      FilesLeft(before, c, FileSize(c));
    }
    ok, done := ReadThem(fs, c);
    if !ok { return; }
    ok, removed := RemoveThem(fs, c);
    if !ok { return; }
    OnlyIfReady(before, c, FileSize(c));
    NothingAdded(before, c);
    OperationCounts(c);
  }

  lemma {:induction false} OperationCounts(c: Config)
    ensures Repeat(|c.bases|, VolumeOps(c)) == |c.bases| * (2 + c.dirs * (1 + c.files * (1 + c.blocks)))
    ensures Repeat(|c.bases|, RemoveOps(c)) == |c.bases| * (1 + c.dirs * (1 + c.files))
  {
    RepeatIs(c.files, FileOps(c));
    RepeatIs(c.dirs, DirOps(c));
    RepeatIs(|c.bases|, VolumeOps(c));
    RepeatIs(c.dirs, 1 + c.files);
    RepeatIs(|c.bases|, RemoveOps(c));
  }

  // ---------------------------------------------------------------------------------------------
  // The whole job

  predicate Below(p: Path, q: Path) { p <= q && p != q }

  /** The state without what is below a directory. */
  function Emptied(f: Contents, p: Path): Contents {
    if p !in f.dirs then f
    else Contents(set q | q in f.dirs && !Below(p, q), map q | q in f.files && !Below(p, q) :: f.files[q])
  }

  /** The state without what is at or below the paths of `gone`, all of length n. */
  function Trimmed(f: Contents, gone: set<Path>, n: nat): Contents {
    Contents(set q | q in f.dirs && !(|q| >= n && q[..n] in gone),
             map q | q in f.files && !(|q| >= n && q[..n] in gone) :: f.files[q])
  }

  lemma {:induction false} OneMoreGone(f: Contents, gone: set<Path>, n: nat, x: Path)
    requires |x| == n
    ensures Without(Trimmed(f, gone, n), x) == Trimmed(f, gone + {x}, n)
  {
    var a, b := Without(Trimmed(f, gone, n), x), Trimmed(f, gone + {x}, n);
    forall q: Path ensures x <= q <==> |q| >= n && q[..n] == x {}
    assert a.dirs == b.dirs && a.files == b.files;
  }

  /** Nothing is below a file. */
  lemma {:induction false} FileAlone(f: Contents, x: Path)
    requires WellFormed(f) && x in f.files
    ensures Without(f, x) == Contents(f.dirs, f.files - {x})
  {
    forall q | (q in f.dirs || q in f.files) && x <= q && q != x ensures false { PrefixIsDirectory(f, q, x); }
    assert Without(f, x).dirs == f.dirs && Without(f, x).files == f.files - {x};
  }

  lemma {:induction false} AllEntriesGone(f: Contents, p: Path)
    requires WellFormed(f) && p in f.dirs
    ensures Trimmed(f, Entries(f, p), |p| + 1) == Emptied(f, p)
  {
    var n := |p| + 1;
    forall q | q in f.dirs || q in f.files ensures Below(p, q) <==> |q| >= n && q[..n] in Entries(f, p) {
      if |q| >= n {
        var x := q[..n];
        assert Parent(x) == q[..|p|];
        if x != q { PrefixIsDirectory(f, q, x); }
      }
    }
    var a, b := Trimmed(f, Entries(f, p), n), Emptied(f, p);
    assert a.dirs == b.dirs && a.files == b.files;
  }

  /** The entries of a directory, one after the other. */
  method RemoveEntries(fs: FileSystem, entries: set<Path>, n: nat)
    requires fs.Valid() && n > 0 && forall x :: x in entries ==> |x| == n && (x in fs.dirs || x in fs.files)
    modifies fs
    ensures fs.Valid() && fs.View() == Trimmed(old(fs.View()), entries, n)
  {
    ghost var f := fs.View();
    var rest := entries;
    NothingGone(f, n);
    while rest != {}
      invariant fs.Valid() && rest <= entries && fs.View() == Trimmed(f, entries - rest, n)
      decreases |rest|
    {
      var entry :| entry in rest;
      OneMoreGone(f, entries - rest, n, entry);
      StillListed(f, entries - rest, n, entry);
      assert entries - (rest - {entry}) == entries - rest + {entry};
      var directory := fs.IsDir(entry);
      if directory {
        fs.Rmtree(entry);
      } else {
        FileAlone(fs.View(), entry);
        var removed := fs.Unlink(entry);
      }
      rest := rest - {entry};
    }
    assert entries - {} == entries;
  }

  lemma {:induction false} NothingGone(f: Contents, n: nat)
    ensures Trimmed(f, {}, n) == f
  {
    assert Trimmed(f, {}, n).dirs == f.dirs && Trimmed(f, {}, n).files == f.files;
  }

  /** _cleanup_tree(): everything in a directory goes, the directory stays; `clean` is the result. Fails if the path
      is that of a file. */
  method CleanupTree(fs: FileSystem, tree: Path) returns (ok: bool, clean: bool)
    requires fs.Valid()
    modifies fs
    ensures fs.Valid() && (ok <==> tree !in old(fs.files)) && (ok ==> clean)
    ensures fs.View() == Emptied(old(fs.View()), tree)
  {
    ok, clean := true, true;
    var isFile := fs.IsFile(tree);
    var isDirectory := fs.IsDir(tree);
    if isFile || isDirectory {
      var entries;
      ok, entries := fs.Listdir(tree);
      if !ok { return; }
      AllEntriesGone(fs.View(), tree);
      RemoveEntries(fs, entries, |tree| + 1);
    }
    isDirectory := fs.IsDir(tree);
    if isDirectory {
      var entries;
      ok, entries := fs.Listdir(tree);
      NoneLeft(old(fs.View()), tree);
      clean := entries == {};
    }
  }

  lemma {:induction false} NoneLeft(f: Contents, p: Path)
    ensures p in f.dirs ==> Entries(Emptied(f, p), p) == {}
  {
    forall q | q != [] && Parent(q) == p ensures Below(p, q) { ParentIsPrefix(q); }
  }

  /** Removing other entries does not touch this one. */
  lemma {:induction false} StillListed(f: Contents, gone: set<Path>, n: nat, x: Path)
    requires (x in f.dirs || x in f.files) && |x| == n && x !in gone
    ensures x in Trimmed(f, gone, n).dirs || x in Trimmed(f, gone, n).files
  {
    assert x[..n] == x;
  }

  lemma {:induction false} EmptiedWellFormed(f: Contents, p: Path)
    requires WellFormed(f)
    ensures WellFormed(Emptied(f, p))
  {
    forall q | q in f.dirs || q in f.files ensures q != [] && Below(p, Parent(q)) ==> Below(p, q) {
      if q != [] { ParentIsPrefix(q); }
    }
  }

  /** The state after the clean-up of the first n base directories. */
  function Swept(f: Contents, c: Config, n: nat): Contents
    requires n <= |c.bases|
  {
    if n == 0 then f else Emptied(Swept(f, c, n - 1), c.bases[n - 1])
  }

  /** q is below one of the first n base directories, which exists. */
  ghost predicate Covered(f: Contents, c: Config, n: nat, q: Path)
    requires n <= |c.bases|
  {
    exists i :: 0 <= i < n && c.bases[i] in f.dirs && Below(c.bases[i], q)
  }

  /** The clean-up removes exactly what is below the base directories that exist, in whatever order it goes. */
  lemma {:induction false} SweptIs(f: Contents, c: Config, n: nat, q: Path)
    requires n <= |c.bases|
    ensures q in Swept(f, c, n).dirs <==> q in f.dirs && !Covered(f, c, n, q)
    ensures q in Swept(f, c, n).files <==> q in f.files && !Covered(f, c, n, q)
    ensures q in Swept(f, c, n).files ==> Swept(f, c, n).files[q] == f.files[q]
  {
    if n > 0 {
      var base := c.bases[n - 1];
      SweptIs(f, c, n - 1, q);
      SweptIs(f, c, n - 1, base);
      if base in f.dirs && Below(base, q) && Covered(f, c, n - 1, base) {
        var i :| 0 <= i < n - 1 && c.bases[i] in f.dirs && Below(c.bases[i], base);
        assert Below(c.bases[i], q);
      }
      assert Covered(f, c, n, q) <==> Covered(f, c, n - 1, q) || (base in f.dirs && Below(base, q));
    }
  }

  lemma {:induction false} SweptWellFormed(f: Contents, c: Config, n: nat)
    requires WellFormed(f) && n <= |c.bases|
    ensures WellFormed(Swept(f, c, n))
  {
    if n > 0 {
      SweptWellFormed(f, c, n - 1);
      EmptiedWellFormed(Swept(f, c, n - 1), c.bases[n - 1]);
    }
  }

  /** After the clean-up no volume is left. */
  lemma {:induction false} NoVolumeLeft(f: Contents, c: Config, i: nat)
    requires WellFormed(f) && i < |c.bases|
    ensures Volume(c, i) !in Swept(f, c, |c.bases|).dirs && Volume(c, i) !in Swept(f, c, |c.bases|).files
  {
    var v := Volume(c, i);
    SweptIs(f, c, |c.bases|, v);
    assert Parent(v) == c.bases[i] && Below(c.bases[i], v);
  }

  lemma {:induction false} NothingToClean(f: Contents, c: Config, n: nat)
    requires WellFormed(f) && n <= |c.bases|
    ensures Cleaned(Swept(f, c, |c.bases|), c, n) == Swept(f, c, |c.bases|)
  {
    if n > 0 {
      NothingToClean(f, c, n - 1);
      NoVolumeLeft(f, c, n - 1);
    }
  }

  /** What the whole job needs: no volume's directory in or above another's, and, once the clean-up has come to a base
      directory or to the end, no file in its place or above it. */
  ghost predicate Startable(f: Contents, c: Config) {
    && Unrelated(c)
    && (forall i :: 0 <= i < |c.bases| ==> c.bases[i] !in Swept(f, c, i).files)
    && (forall i, q :: 0 <= i < |c.bases| && q <= c.bases[i] ==> q !in Swept(f, c, |c.bases|).files)
  }

  lemma {:induction false} SweptIsReady(f: Contents, c: Config)
    requires WellFormed(f) && Startable(f, c)
    ensures Ready(Swept(f, c, |c.bases|), c)
  {
    var g := Swept(f, c, |c.bases|);
    forall i | 0 <= i < |c.bases| ensures CanMake(g, Volume(c, i)) {
      NoVolumeLeft(f, c, i);
      forall q | q <= Volume(c, i) ensures q !in g.files {
        if q != Volume(c, i) { assert q <= c.bases[i]; }
      }
    }
  }

  /** What the job leaves behind: base directories, and nothing of what was in them. */
  function After(f: Contents, c: Config): Contents {
    var g := Swept(f, c, |c.bases|);
    Contents(g.dirs + BasePrefixes(c, |c.bases|), g.files)
  }

  /** The clean-up of all base directories, in the order of the options. */
  method Sweep(fs: FileSystem, c: Config) returns (ok: bool)
    requires fs.Valid()
    modifies fs
    ensures fs.Valid() && (ok <==> forall i :: 0 <= i < |c.bases| ==> c.bases[i] !in Swept(old(fs.View()), c, i).files)
    ensures ok ==> fs.View() == Swept(old(fs.View()), c, |c.bases|)
  {
    ok := true;
    for i := 0 to |c.bases|
      invariant fs.Valid() && ok && fs.View() == Swept(old(fs.View()), c, i)
      invariant forall k :: 0 <= k < i ==> c.bases[k] !in Swept(old(fs.View()), c, k).files
    {
      var clean;
      ok, clean := CleanupTree(fs, c.bases[i]);
      if !ok { return; }
    }
  }

  /** The whole job, from any state, left-overs of an earlier one included: it succeeds exactly if it can start, and
      then the base directories exist with nothing in them but base directories, and all else is as before. */
  method RunIt(fs: FileSystem, c: Config, open: set<nat>) returns (ok: bool)
    requires fs.Valid()
    modifies fs
    ensures fs.Valid() && (ok <==> Startable(old(fs.View()), c))
    ensures ok ==> fs.View() == After(old(fs.View()), c)
  {
    ghost var f := fs.View();
    ok := Sweep(fs, c);
    if !ok { return; }
    NothingToClean(f, c, |c.bases|);
    CleanUp(fs, c, open);
    if Startable(f, c) { SweptIsReady(f, c); }
    var created, done, removed;
    ok, created, done, removed := RoundTrip(fs, c);
    if ok { assert Startable(f, c); }
  }

  /** Nothing is below a base directory but what leads to another one. */
  ghost predicate Bare(f: Contents, c: Config) {
    && (forall q :: q in f.files ==> !Covered(f, c, |c.bases|, q))
    && (forall q :: q in f.dirs && Covered(f, c, |c.bases|, q) ==> exists j :: 0 <= j < |c.bases| && q <= c.bases[j])
  }

  /** The job leaves the file system as it was exactly if all base directories existed and were empty but for base
      directories in them. */
  lemma {:induction false} AsBeforeExactly(f: Contents, c: Config)
    requires WellFormed(f)
    ensures After(f, c) == f <==> (forall i :: 0 <= i < |c.bases| ==> c.bases[i] in f.dirs) && Bare(f, c)
  {
    var n, a := |c.bases|, After(f, c);
    forall q
      ensures q in a.dirs <==> (q in f.dirs && !Covered(f, c, n, q)) || exists i :: 0 <= i < n && q <= c.bases[i]
      ensures q in a.files <==> q in f.files && !Covered(f, c, n, q)
      ensures q in a.files ==> a.files[q] == f.files[q]
    {
      SweptIs(f, c, n, q);
      BasePrefixesAre(c, n, q);
    }
    if a == f {
      forall i | 0 <= i < n ensures c.bases[i] in f.dirs { assert c.bases[i] <= c.bases[i]; }
    }
    if (forall i :: 0 <= i < n ==> c.bases[i] in f.dirs) && Bare(f, c) {
      forall q, i | 0 <= i < n && q <= c.bases[i] ensures q in f.dirs {
        if q != c.bases[i] { PrefixIsDirectory(f, c.bases[i], q); }
      }
      assert a.dirs == f.dirs && a.files == f.files;
    }
  }

  lemma {:induction false} NotEmpty(f: Contents, p: Path, q: Path)
    requires WellFormed(f) && (q in f.dirs || q in f.files)
    ensures Below(p, q) ==> !Empty(f, p)
  {
    if Below(p, q) {
      var x := q[..|p| + 1];
      assert x <= q && Parent(x) == p;
      if x != q { PrefixIsDirectory(f, q, x); }
    }
  }

  /** No base directory is at or below another. */
  ghost predicate Apart(c: Config) {
    forall i, j :: 0 <= i < |c.bases| && 0 <= j < |c.bases| && i != j ==> !(c.bases[i] <= c.bases[j])
  }

  lemma {:induction false} EntryInTheWay(c: Config, i: nat, q: Path)
    requires Apart(c) && i < |c.bases| && q != [] && Parent(q) == c.bases[i]
    ensures Below(c.bases[i], q) && forall j :: 0 <= j < |c.bases| ==> !(q <= c.bases[j])
  {
    forall j | 0 <= j < |c.bases| ensures !(q <= c.bases[j]) { assert c.bases[i] <= q; }
  }

  /** For base directories apart from each other: exactly if they existed and were empty. */
  lemma {:induction false} AsBeforeIfEmpty(f: Contents, c: Config)
    requires WellFormed(f) && Apart(c)
    ensures After(f, c) == f <==>
              forall i :: 0 <= i < |c.bases| ==> c.bases[i] in f.dirs && Empty(f, c.bases[i])
  {
    var n := |c.bases|;
    AsBeforeExactly(f, c);
    if (forall i :: 0 <= i < n ==> c.bases[i] in f.dirs) && Bare(f, c) {
      forall i, q | 0 <= i < n && (q in f.dirs || q in f.files) && q != [] ensures Parent(q) != c.bases[i] {
        if Parent(q) == c.bases[i] { EntryInTheWay(c, i, q); }
      }
    }
    if forall i :: 0 <= i < n ==> c.bases[i] in f.dirs && Empty(f, c.bases[i]) {
      forall q | q in f.dirs || q in f.files ensures !Covered(f, c, n, q) {
        forall i | 0 <= i < n ensures !Below(c.bases[i], q) { NotEmpty(f, c.bases[i], q); }
      }
    }
  }
}
