/** Reading back what a synchronisation installed: `installed_kernels`. */
module Installed {
  import opened Text
  import opened Fat
  import opened Volumes
  import opened Entries
  import opened SyncPlan
  import opened Loaders
  import opened Order
  import opened Discovery

  datatype ReadError = CannotReadKernelDirs

  /** Whether a path is an entry of a directory below the namespace directory. */
  ghost predicate IsListed(d: Disk, base: Path, p: Path) {
    && |p| == |base| + 2 && p[..|base|] == base
    && p[|base|] in Children(d, Key(base)) && IsDir(d, Key(base + [p[|base|]]))
    && p[|base| + 1] in Children(d, Key(base + [p[|base|]]))
  }

  /** The entries of one directory, as paths. */
  method ReadPaths(vol: Volume, dir: Path) returns (found: seq<Path>)
    requires vol.Valid()
    ensures forall p :: p in found <==> p != [] && Parent(p) == dir && Last(p) in Children(vol.disk, Key(dir))
  {
    var names := vol.ReadDir(dir);
    found := [];
    for i := 0 to |names|
      invariant forall p :: p in found <==> p != [] && Parent(p) == dir && Last(p) in names[..i]
    {
      assert names[..i + 1] == names[..i] + [names[i]];
      ghost var added := dir + [names[i]];
      assert Parent(added) == dir && Last(added) == names[i];
      assert forall p | p != [] && Parent(p) == dir && Last(p) == names[i] :: p == Parent(p) + [Last(p)] == added;
      found := found + [dir + [names[i]]];
    }
    assert names[..|names|] == names;
  }

  /** All entries of all directories below the namespace directory. */
  method AllEntries(vol: Volume, base: Path) returns (paths: seq<Path>)
    requires vol.Valid()
    ensures forall p :: p in paths <==> IsListed(vol.disk, base, p)
  {
    var dirs := SubDirs(vol, base);
    paths := [];
    for i := 0 to |dirs|
      invariant forall p :: p in paths <==>
                  exists j | 0 <= j < i ::
                    p != [] && Parent(p) == dirs[j] && Last(p) in Children(vol.disk, Key(dirs[j]))
    {
      var more := ReadPaths(vol, dirs[i]);
      paths := paths + more;
    }
    forall p
      ensures p in paths <==> IsListed(vol.disk, base, p)
    {
      ListedBelow(vol.disk, base, dirs, p);
    }
  }

  lemma ListedBelow(d: Disk, base: Path, dirs: seq<Path>, p: Path)
    requires forall q :: q in dirs <==>
               exists n | n in Children(d, Key(base)) :: IsDir(d, Key(base + [n])) && q == base + [n]
    ensures IsListed(d, base, p) <==>
              exists j | 0 <= j < |dirs| :: p != [] && Parent(p) == dirs[j] && Last(p) in Children(d, Key(dirs[j]))
  {
    hide Children;
    if IsListed(d, base, p) {
      var dir := base + [p[|base|]];
      assert Parent(p) == dir;
      assert dir in dirs;
      var j :| 0 <= j < |dirs| && dirs[j] == dir;
    }
    if j :| 0 <= j < |dirs| && p != [] && Parent(p) == dirs[j] && Last(p) in Children(d, Key(dirs[j])) {
      assert dirs[j] in dirs;
      var n :| n in Children(d, Key(base)) && IsDir(d, Key(base + [n])) && dirs[j] == base + [n];
      assert p[|base|] == Parent(p)[|base|] == n;
      assert p[..|base|] == Parent(p)[..|base|] == base;
    }
  }

  /** `installed_kernels`, for schemas whose kernels lie in directories of their own. */
  method InstalledKernels(vol: Volume, schema: Schema) returns (r: Result<seq<Kernel>, ReadError>)
    requires vol.Valid() && !schema.Legacy?
    ensures var base := NamespaceDir(vol.disk, schema.OsNamespace());
            && (r.Err? <==> !IsDir(vol.disk, Key(base)))
            && (r.Ok? ==> AreInstalled(vol.disk, base, r.value))
  {
    hide IsListed, Discovered, TreeSet, IsValues, NamespaceDir;
    var base := KernelDirOf(vol, schema);
    if !IsDir(vol.disk, Key(base)) {
      return Err(CannotReadKernelDirs);
    }
    var paths := AllEntries(vol, base);
    var kernels := BlsformeKernels(paths);
    assert Gives(paths, if kernels.Ok? then kernels.value else []);
    r := if kernels.Ok? then Ok(kernels.value) else Ok([]);
  }

  /** What discovery makes of some paths; none at all if it fails. */
  ghost predicate Gives(paths: seq<Path>, kernels: seq<Kernel>) {
    match Discovered(TreeSet(paths))
    case Ok(found) => IsValues(kernels, found)
    case Err(_) => kernels == []
  }

  /** What discovery makes of a listing of everything below the namespace directory. */
  ghost predicate AreInstalled(d: Disk, base: Path, kernels: seq<Kernel>) {
    exists paths: seq<Path> :: (forall p :: p in paths <==> IsListed(d, base, p)) && Gives(paths, kernels)
  }
}
