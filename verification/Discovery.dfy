/** Kernel discovery: from a collection of paths to kernels with their initrds and extra files. */
module Discovery {
  import opened Text
  import opened Entries
  import opened Order

  datatype Problem = InvalidFilesystem

  /** `file_name_str().unwrap_or_default()`. */
  function NameOrEmpty(p: Path): string {
    if FileName(p).Some? then FileName(p).value else ""
  }

  predicate IsImage(p: Path) {
    p != [] && Last(p) == "vmlinuz"
  }

  /** The name of the directory a file is in. */
  function VersionOf(p: Path): Option<string> {
    if p == [] then None else FileName(Parent(p))
  }

  /** The kind of file a name stands for below a kernel's own directory. */
  function KindOf(name: string): Option<AuxKind> {
    if name == "System.map" then Some(SystemMap)
    else if name == "boot.json" then Some(BootJson)
    else if name == "config" then Some(Config)
    else if EndsWith(name, "-shared.initrd") then Some(SharedInitRd)
    else if EndsWith(name, ".initrd") then Some(VersionedInitRd)
    else if EndsWith(name, ".cmdline") then Some(Cmdline)
    else None
  }

  predicate IsInitrd(kind: AuxKind) {
    kind.VersionedInitRd? || kind.SharedInitRd?
  }

  // ---------------------------------------------------------------- specification

  predicate IsKernelImage(p: Path, version: string) {
    IsImage(p) && VersionOf(p) == Some(version)
  }

  /** The image of every version; the last of several wins. */
  function Images(all: seq<Path>): map<string, Path> {
    if all == [] then map[]
    else
      var before, p := Images(all[..|all| - 1]), Last(all);
      if IsImage(p) && VersionOf(p).Some? then before[VersionOf(p).value := p] else before
  }

  /** Whether a path is looked at as a file of the kernel in `dir`. */
  predicate IsVersioned(p: Path, dir: Path, version: string) {
    !IsImage(p) && dir <= p && !(p != [] && Last(p) == version)
  }

  predicate Readable(all: seq<Path>, dir: Path, version: string) {
    forall p | p in all && IsVersioned(p, dir, version) :: FileName(p).Some?
  }

  /** What a path contributes to the initrds, or to the extra files, of the kernel in `dir`. */
  function Contribution(p: Path, dir: Path, version: string, initrds: bool): seq<AuxFile> {
    var kind := KindOf(NameOrEmpty(p));
    if IsVersioned(p, dir, version) && kind.Some? && IsInitrd(kind.value) == initrds then [AuxFile(p, kind.value)]
    else []
  }

  function Collected(all: seq<Path>, dir: Path, version: string, initrds: bool): seq<AuxFile> {
    if all == [] then []
    else Collected(all[..|all| - 1], dir, version, initrds) + Contribution(Last(all), dir, version, initrds)
  }

  /** Whether a path is a shared initrd for the kernel in `dir`. */
  predicate IsShared(p: Path, dir: Path)
    requires dir != []
  {
    Parent(dir) + ["initrd.d"] <= p && EndsWith(NameOrEmpty(p), ".initrd")
  }

  function SharedPaths(all: seq<Path>, dir: Path): seq<Path>
    requires dir != []
  {
    if all == [] then []
    else SharedPaths(all[..|all| - 1], dir) + if IsShared(Last(all), dir) then [Last(all)] else []
  }

  /** `retain`: drop the files of one name. */
  function Without(list: seq<AuxFile>, name: string): seq<AuxFile> {
    if list == [] then []
    else Without(list[..|list| - 1], name) + if NameOrEmpty(Last(list).path) != name then [Last(list)] else []
  }

  /** Each shared initrd in turn replaces whatever has its name. */
  function Override(list: seq<AuxFile>, shared: seq<Path>): seq<AuxFile> {
    if shared == [] then list
    else
      var before := Override(list, shared[..|shared| - 1]);
      Without(before, NameOrEmpty(Last(shared))) + [AuxFile(Last(shared), SharedInitRd)]
  }

  function SortKey(file: AuxFile): string {
    Fold(NameOrEmpty(file.path))
  }

  function KernelOf(all: seq<Path>, image: Path): Kernel
    requires VersionOf(image).Some?
  {
    var dir, version := Parent(image), VersionOf(image).value;
    Kernel(version, image,
           SortBy(SortKey, Override(Collected(all, dir, version, true), SharedPaths(all, dir))),
           SortBy(SortKey, Collected(all, dir, version, false)),
           None)
  }

  predicate Loadable(all: seq<Path>, image: Path, version: string) {
    IsKernelImage(image, version) && Readable(all, Parent(image), version)
  }

  /** The discovered kernels by version, over an ordered set of paths. */
  function Discovered(all: seq<Path>): Result<map<string, Kernel>, Problem> {
    var images := Images(all);
    if forall v | v in images :: Loadable(all, images[v], v) then
      Ok(map v | v in images :: KernelOf(all, images[v]))
    else Err(InvalidFilesystem)
  }

  // ---------------------------------------------------------------- the program

  /** The candidate kernels, before their files are looked for. */
  method FindImages(all: seq<Path>) returns (kernels: map<string, Kernel>)
    ensures kernels.Keys == Images(all).Keys
    ensures forall v | v in kernels :: kernels[v] == Kernel(v, Images(all)[v], [], [], None)
  {
    kernels := map[];
    for i := 0 to |all|
      invariant kernels.Keys == Images(all[..i]).Keys
      invariant forall v | v in kernels :: kernels[v] == Kernel(v, Images(all[..i])[v], [], [], None)
    {
      assert all[..i + 1][..i] == all[..i];
      if IsImage(all[i]) {
        var version := VersionOf(all[i]);
        if version.Some? {
          kernels := kernels[version.value := Kernel(version.value, all[i], [], [], None)];
        }
      }
    }
    assert all[..|all|] == all;
  }

  /** The first inner loop: the kernel's own files. */
  method FindVersioned(all: seq<Path>, dir: Path, version: string)
    returns (ok: bool, initrd: seq<AuxFile>, extras: seq<AuxFile>)
    ensures ok <==> Readable(all, dir, version)
    ensures ok ==> initrd == Collected(all, dir, version, true) && extras == Collected(all, dir, version, false)
  {
    hide Readable, Collected, KindOf;
    NoFiles(all, dir, version);
    ok, initrd, extras := true, [], [];
    for i := 0 to |all|
      invariant Readable(all[..i], dir, version)
      invariant initrd == Collected(all[..i], dir, version, true)
      invariant extras == Collected(all[..i], dir, version, false)
    {
      var asset := all[i];
      NextFile(all, dir, version, i);
      if IsVersioned(asset, dir, version) {
        var name := FileName(asset);
        if name.None? {
          Unreadable(all, dir, version, i);
          return false, initrd, extras;
        }
        var kind := KindOf(name.value);
        if kind.Some? {
          if IsInitrd(kind.value) {
            initrd := initrd + [AuxFile(asset, kind.value)];
          } else {
            extras := extras + [AuxFile(asset, kind.value)];
          }
        }
      }
    }
    assert all[..|all|] == all;
  }

  lemma NoFiles(all: seq<Path>, dir: Path, version: string)
    ensures Readable(all[..0], dir, version)
    ensures Collected(all[..0], dir, version, true) == [] == Collected(all[..0], dir, version, false)
  {
  }

  lemma NextFile(all: seq<Path>, dir: Path, version: string, i: nat)
    requires i < |all| && Readable(all[..i], dir, version)
    ensures (IsVersioned(all[i], dir, version) ==> FileName(all[i]).Some?) ==> Readable(all[..i + 1], dir, version)
    ensures forall initrds :: Collected(all[..i + 1], dir, version, initrds)
                           == Collected(all[..i], dir, version, initrds) + Contribution(all[i], dir, version, initrds)
  {
    hide Contribution, IsVersioned, FileName;
    assert all[..i + 1][..i] == all[..i] && Last(all[..i + 1]) == all[i];
    assert all[..i + 1] == all[..i] + [all[i]];
  }

  lemma Unreadable(all: seq<Path>, dir: Path, version: string, i: nat)
    requires i < |all| && IsVersioned(all[i], dir, version) && FileName(all[i]).None?
    ensures !Readable(all, dir, version)
  {
    assert all[i] in all;
    hide IsVersioned, FileName;
  }

  method Retain(list: seq<AuxFile>, name: string) returns (kept: seq<AuxFile>)
    ensures kept == Without(list, name)
  {
    kept := [];
    for i := 0 to |list|
      invariant kept == Without(list[..i], name)
    {
      assert list[..i + 1][..i] == list[..i];
      if NameOrEmpty(list[i].path) != name {
        kept := kept + [list[i]];
      }
    }
    assert list[..|list|] == list;
  }

  /** The second inner loop: shared initrds override files of the same name. */
  method AddShared(all: seq<Path>, dir: Path, own: seq<AuxFile>) returns (initrd: seq<AuxFile>)
    requires dir != []
    ensures initrd == Override(own, SharedPaths(all, dir))
  {
    hide SharedPaths, Override, Without, IsShared;
    NoneShared(own, all, dir);
    initrd := own;
    for i := 0 to |all|
      invariant initrd == Override(own, SharedPaths(all[..i], dir))
    {
      NextShared(all, dir, i);
      if IsShared(all[i], dir) {
        NextOverride(own, SharedPaths(all[..i], dir), all[i]);
        initrd := Retain(initrd, NameOrEmpty(all[i]));
        initrd := initrd + [AuxFile(all[i], SharedInitRd)];
      }
    }
    assert all[..|all|] == all;
  }

  lemma NoneShared(own: seq<AuxFile>, all: seq<Path>, dir: Path)
    requires dir != []
    ensures Override(own, SharedPaths(all[..0], dir)) == own
  {
  }

  lemma NextShared(all: seq<Path>, dir: Path, i: nat)
    requires dir != [] && i < |all|
    ensures SharedPaths(all[..i + 1], dir)
         == if IsShared(all[i], dir) then SharedPaths(all[..i], dir) + [all[i]] else SharedPaths(all[..i], dir)
  {
    assert all[..i + 1][..i] == all[..i];
    assert SharedPaths(all[..i], dir) + [] == SharedPaths(all[..i], dir);
  }

  lemma NextOverride(own: seq<AuxFile>, shared: seq<Path>, p: Path)
    ensures Override(own, shared + [p]) == Without(Override(own, shared), NameOrEmpty(p)) + [AuxFile(p, SharedInitRd)]
  {
    assert (shared + [p])[..|shared|] == shared;
  }

  /** A list of exactly the values of a map, each under its version. */
  ghost predicate IsValues(kernels: seq<Kernel>, m: map<string, Kernel>) {
    && (forall i | 0 <= i < |kernels| :: kernels[i].version in m && m[kernels[i].version] == kernels[i])
    && (forall i, j | 0 <= i < j < |kernels| :: kernels[i].version != kernels[j].version)
    && (forall v | v in m :: m[v] in kernels)
  }

  /** One round of the outer loop: everything that belongs to one kernel. */
  method FindFiles(all: seq<Path>, candidate: Kernel) returns (ok: bool, kernel: Kernel)
    requires IsKernelImage(candidate.image, candidate.version) && |candidate.image| >= 2
    requires candidate == Kernel(candidate.version, candidate.image, [], [], None)
    ensures ok <==> Loadable(all, candidate.image, candidate.version)
    ensures ok ==> IsFound(all, candidate.image, candidate.version, kernel)
  {
    hide Readable, Collected, SharedPaths, Override, SortBy;
    var dir := Parent(candidate.image);
    kernel := candidate;
    var initrd, extras;
    ok, initrd, extras := FindVersioned(all, dir, candidate.version);
    if ok {
      initrd := AddShared(all, dir, initrd);
      kernel := candidate.(initrd := SortBy(SortKey, initrd), extras := SortBy(SortKey, extras));
    }
  }

  /** `blsforme_kernels`. */
  method BlsformeKernels(paths: seq<Path>) returns (r: Result<seq<Kernel>, Problem>)
    ensures r.Ok? <==> Discovered(TreeSet(paths)).Ok?
    ensures r.Ok? ==> IsValues(r.value, Discovered(TreeSet(paths)).value)
  {
    hide TreeSet, Loadable, IsFound, KernelOf, IsValues, Discovered;
    var all := TreeSet(paths);
    ImagesSound(all);
    var kernels := FindImages(all);
    hide Images;
    var todo := kernels.Keys;
    while todo != {}
      invariant todo <= kernels.Keys == Images(all).Keys
      invariant forall v | v in todo :: kernels[v] == Kernel(v, Images(all)[v], [], [], None)
      invariant forall v | v in kernels && v !in todo :: IsFound(all, Images(all)[v], v, kernels[v])
      decreases todo
    {
      var version :| version in todo;
      todo := todo - {version};
      var ok, kernel := FindFiles(all, kernels[version]);
      if !ok {
        NotFound(all, version);
        return Err(InvalidFilesystem);
      }
      kernels := kernels[version := kernel];
    }
    AllFound(all, kernels);
    var values := IntoValues(kernels);
    r := Ok(values);
  }

  /** The finished kernel of one version. */
  ghost predicate IsFound(all: seq<Path>, image: Path, version: string, kernel: Kernel) {
    Loadable(all, image, version) && kernel == KernelOf(all, image)
  }

  lemma AllFound(all: seq<Path>, kernels: map<string, Kernel>)
    requires kernels.Keys == Images(all).Keys
    requires forall v | v in kernels :: IsFound(all, Images(all)[v], v, kernels[v])
    ensures Discovered(all) == Ok(kernels)
    ensures forall v | v in kernels :: kernels[v].version == v
  {
    hide Images, Readable, Collected, SharedPaths, Override, SortBy;
    var images := Images(all);
    forall v | v in images
      ensures Loadable(all, images[v], v)
    {
      assert IsFound(all, images[v], v, kernels[v]);
    }
    forall v | v in kernels
      ensures kernels[v] == KernelOf(all, images[v]) && kernels[v].version == v
    {
      assert IsFound(all, images[v], v, kernels[v]);
    }
    hide Loadable, KernelOf;
    assert forall v | v in images :: Loadable(all, images[v], v);
    assert Discovered(all).Ok?;
    var found := Discovered(all).value;
    assert found.Keys == kernels.Keys;
    assert forall v | v in kernels :: found[v] == kernels[v];
    assert found == kernels;
  }

  lemma NotFound(all: seq<Path>, version: string)
    requires version in Images(all) && !Loadable(all, Images(all)[version], version)
    ensures Discovered(all) == Err(InvalidFilesystem)
  {
    hide Loadable;
  }

  /** `into_values`, in the order the hash map happens to have. */
  method IntoValues(m: map<string, Kernel>) returns (kernels: seq<Kernel>)
    requires forall v | v in m :: m[v].version == v
    ensures IsValues(kernels, m)
  {
    kernels := [];
    var todo := m.Keys;
    while todo != {}
      invariant todo <= m.Keys
      invariant forall i | 0 <= i < |kernels| ::
                  kernels[i].version in m && kernels[i].version !in todo && m[kernels[i].version] == kernels[i]
      invariant forall i, j | 0 <= i < j < |kernels| :: kernels[i].version != kernels[j].version
      invariant forall v | v in m && v !in todo :: m[v] in kernels
      decreases todo
    {
      var v :| v in todo;
      todo := todo - {v};
      kernels := kernels + [m[v]];
    }
  }

  lemma {:induction false} ImagesSound(all: seq<Path>)
    ensures forall v | v in Images(all) :: Images(all)[v] in all && IsKernelImage(Images(all)[v], v)
    ensures forall v | v in Images(all) :: |Images(all)[v]| >= 2
  {
    if all != [] {
      ImagesSound(all[..|all| - 1]);
    }
  }
}
