/** Discovery after installation: a synchronisation's kernels are found again, with their own initrds. */
module RoundTrip {
  import opened Text
  import opened Entries
  import opened Order
  import opened Discovery
  import opened Overrides

  // ---------------------------------------------------------------- names in order

  function Names(files: seq<AuxFile>): (r: seq<string>)
    ensures |r| == |files|
    ensures forall i | 0 <= i < |files| :: r[i] == NameOrEmpty(files[i].path)
  {
    seq(|files|, i requires 0 <= i < |files| => NameOrEmpty(files[i].path))
  }

  /** In order of lower-cased names, no two alike. */
  ghost predicate NamesAscend(names: seq<string>) {
    forall i, j | 0 <= i < j < |names| :: StringLess(Fold(names[i]), Fold(names[j]))
  }

  lemma SameFirst(s: seq<string>, t: seq<string>)
    requires NamesAscend(s) && NamesAscend(t) && s != [] && t != []
    requires forall n :: n in s <==> n in t
    ensures s[0] == t[0]
  {
    hide StringLess;
    StringOrder();
    assert s[0] in s && t[0] in t;
    var i :| 0 <= i < |t| && t[i] == s[0];
    var j :| 0 <= j < |s| && s[j] == t[0];
  }

  lemma {:induction false} NamesUnique(s: seq<string>, t: seq<string>)
    requires NamesAscend(s) && NamesAscend(t)
    requires forall n :: n in s <==> n in t
    ensures s == t
    decreases |s|
  {
    hide StringLess;
    StringOrder();
    assert s != [] ==> s[0] in t;
    assert t != [] ==> t[0] in s;
    if s != [] && t != [] {
      SameFirst(s, t);
      assert s == [s[0]] + s[1..] && t == [t[0]] + t[1..];
      forall n
        ensures n in s[1..] <==> n in t[1..]
      {
        assert n in s[1..] ==> n in s && n != s[0];
        assert n in t[1..] ==> n in t && n != t[0];
      }
      NamesUnique(s[1..], t[1..]);
    }
  }

  /** Sorted files whose names differ up to case are in strict order. */
  lemma SortedAscends(files: seq<AuxFile>)
    requires SortedBy(SortKey, files)
    requires forall i, j | 0 <= i < j < |files| :: SortKey(files[i]) != SortKey(files[j])
    ensures NamesAscend(Names(files))
  {
    hide StringLess;
    StringOrder();
    forall i, j | 0 <= i < j < |files|
      ensures StringLess(Fold(Names(files)[i]), Fold(Names(files)[j]))
    {
      assert Fold(Names(files)[i]) == SortKey(files[i]) && Fold(Names(files)[j]) == SortKey(files[j]);
    }
  }

  lemma {:induction false} DistinctPermutes<T>(s: seq<T>, t: seq<T>)
    requires multiset(s) == multiset(t)
    requires forall i, j | 0 <= i < j < |s| :: s[i] != s[j]
    ensures forall i, j | 0 <= i < j < |t| :: t[i] != t[j]
    ensures forall x :: x in s <==> x in t
  {
    forall x
      ensures x in s <==> x in t
    {
      assert x in multiset(s) <==> x in multiset(t);
    }
    forall i, j | 0 <= i < j < |t|
      ensures t[i] != t[j]
    {
      assert t == t[..j] + [t[j]] + t[j + 1..];
      assert t[i] in t[..j];
      assert t[j] in s by {
        assert t[j] in multiset(t);
      }
      var k :| 0 <= k < |s| && s[k] == t[j];
      Once(s, k);
    }
  }

  // ---------------------------------------------------------------- discovery over an installed layout

  /** A file of a kernel directory, by directory and name. */
  datatype Place = Place(dir: string, leaf: string)

  ghost predicate IsPlaced(base: Path, places: set<Place>, p: Path) {
    |p| == |base| + 2 && p[..|base|] == base && Place(p[|base|], p[|base| + 1]) in places
  }

  /** The paths are exactly the given places below the namespace directory. */
  ghost predicate LaidOut(all: seq<Path>, base: Path, places: set<Place>) {
    Ascending(all) && forall p :: p in all <==> IsPlaced(base, places, p)
  }

  /** Real names, and none of the directories is that of the shared initrds of a distribution. */
  ghost predicate PlainNames(places: set<Place>) {
    forall q | q in places :: q.leaf !in {"/", ".."} && q.dir !in {"/", "..", "initrd.d"}
  }

  ghost predicate HasImage(places: set<Place>, version: string) {
    Place(version, "vmlinuz") in places
  }

  lemma PlacedPath(base: Path, places: set<Place>, q: Place)
    requires q in places
    ensures IsPlaced(base, places, base + [q.dir, q.leaf])
    ensures Parent(base + [q.dir, q.leaf]) == base + [q.dir] && Last(base + [q.dir, q.leaf]) == q.leaf
  {
  }

  lemma PlacedIs(base: Path, places: set<Place>, p: Path)
    requires IsPlaced(base, places, p)
    ensures p == base + [p[|base|], p[|base| + 1]] && Parent(p) == base + [p[|base|]] && Last(p) == p[|base| + 1]
    ensures Parent(p) != [] && Last(Parent(p)) == p[|base|]
  {
  }

  lemma LaidOutImages(all: seq<Path>, base: Path, places: set<Place>, version: string)
    requires LaidOut(all, base, places) && PlainNames(places)
    ensures version in Images(all) <==> HasImage(places, version)
    ensures version in Images(all) ==> Images(all)[version] == base + [version, "vmlinuz"]
  {
    hide Images, KindOf, Ascending, PathLess;
    GreatestImage(all, version);
    if HasImage(places, version) {
      var p := base + [version, "vmlinuz"];
      PlacedPath(base, places, Place(version, "vmlinuz"));
      assert p in all && IsKernelImage(p, version);
    }
    if p :| p in all && IsKernelImage(p, version) {
      PlacedIs(base, places, p);
      assert Place(version, "vmlinuz") in places;
    }
    if version in Images(all) {
      var p := Images(all)[version];
      PlacedIs(base, places, p);
      assert p == base + [version, "vmlinuz"];
    }
  }

  lemma LaidOutReadable(all: seq<Path>, base: Path, places: set<Place>, version: string)
    requires LaidOut(all, base, places) && PlainNames(places) && HasImage(places, version)
    ensures Loadable(all, base + [version, "vmlinuz"], version)
  {
    hide KindOf, Ascending;
    var image := base + [version, "vmlinuz"];
    PlacedPath(base, places, Place(version, "vmlinuz"));
    forall p | p in all
      ensures FileName(p).Some?
    {
      PlacedIs(base, places, p);
      assert Place(p[|base|], p[|base| + 1]) in places;
    }
  }

  lemma {:induction false} NothingShared(all: seq<Path>, dir: Path)
    requires dir != [] && forall p | p in all :: !IsShared(p, dir)
    ensures SharedPaths(all, dir) == []
  {
    hide IsShared;
    if all != [] {
      assert all == all[..|all| - 1] + [Last(all)];
      NothingShared(all[..|all| - 1], dir);
    }
  }

  lemma LaidOutUnshared(all: seq<Path>, base: Path, places: set<Place>, version: string)
    requires LaidOut(all, base, places) && PlainNames(places)
    ensures SharedPaths(all, base + [version]) == []
  {
    hide KindOf, Ascending;
    assert Parent(base + [version]) == base;
    forall p | p in all
      ensures !IsShared(p, base + [version])
    {
      PlacedIs(base, places, p);
      assert Place(p[|base|], p[|base| + 1]) in places;
      assert (base + ["initrd.d"])[|base|] == "initrd.d";
    }
    NothingShared(all, base + [version]);
  }

  /** A name discovery collects in the directory of a version, as an initrd or as an extra file. */
  predicate IsCollectedName(version: string, name: string, initrds: bool) {
    name != "vmlinuz" && name != version && KindOf(name).Some? && IsInitrd(KindOf(name).value) == initrds
  }

  /** The files collected for a version are those placed in its directory under such names. */
  lemma LaidOutFiles(all: seq<Path>, base: Path, places: set<Place>, version: string, initrds: bool, file: AuxFile)
    requires LaidOut(all, base, places) && PlainNames(places)
    ensures file in Collected(all, base + [version], version, initrds) <==>
              && |file.path| == |base| + 2 && file.path[..|base|] == base
              && Place(version, file.path[|base| + 1]) in places && file.path[|base|] == version
              && IsCollectedName(version, file.path[|base| + 1], initrds)
              && KindOf(file.path[|base| + 1]) == Some(file.kind)
  {
    hide KindOf, Ascending, Collected;
    CollectedExactly(all, base + [version], version, initrds, file);
    var p := file.path;
    if IsPlaced(base, places, p) {
      PlacedIs(base, places, p);
      var q := Place(p[|base|], p[|base| + 1]);
      assert NameOrEmpty(p) == q.leaf;
      assert base + [version] <= p <==> q.dir == version;
    }
  }

  ghost predicate LeavesDiffer(places: set<Place>) {
    forall q, r | q in places && r in places && q.dir == r.dir && Fold(q.leaf) == Fold(r.leaf) :: q == r
  }

  lemma PlacedName(base: Path, version: string, n: string)
    requires n !in {"/", ".."}
    ensures NameOrEmpty(base + [version, n]) == n
  {
  }

  lemma CollectedPlace(all: seq<Path>, base: Path, places: set<Place>, version: string, initrds: bool, file: AuxFile)
    requires LaidOut(all, base, places) && PlainNames(places)
    requires file in Collected(all, base + [version], version, initrds)
    ensures IsOwn(base, places, version, initrds, file)
  {
    hide KindOf, LaidOut, Collected, NameOrEmpty, IsCollectedName;
    LaidOutFiles(all, base, places, version, initrds, file);
    var leaf := file.path[|base| + 1];
    assert Place(version, leaf) in places;
    PlacedName(base, version, leaf);
    hide PlainNames;
    assert file.path == base + [version, leaf];
  }

  /** A file collected in the directory of its version. */
  ghost predicate IsOwn(base: Path, places: set<Place>, version: string, initrds: bool, file: AuxFile) {
    var leaf := NameOrEmpty(file.path);
    && file.path == base + [version, leaf] && Place(version, leaf) in places
    && IsCollectedName(version, leaf, initrds) && KindOf(leaf) == Some(file.kind)
  }

  lemma CollectedDiffer(all: seq<Path>, base: Path, places: set<Place>, version: string, own: seq<AuxFile>)
    requires LaidOut(all, base, places) && PlainNames(places) && LeavesDiffer(places)
    requires own == Collected(all, base + [version], version, true)
    ensures forall i, j | 0 <= i < j < |own| :: own[i] != own[j]
    ensures forall i, j | 0 <= i < j < |own| :: SortKey(own[i]) != SortKey(own[j])
  {
    hide Collected, PlainNames, PathLess, KindOf, NameOrEmpty, IsCollectedName;
    PathOrder();
    CollectedOnce(all, base + [version], version, true);
    forall i, j | 0 <= i < j < |own|
      ensures own[i] != own[j] && SortKey(own[i]) != SortKey(own[j])
    {
      assert PathLess(own[i].path, own[j].path);
      CollectedPlace(all, base, places, version, true, own[i]);
      CollectedPlace(all, base, places, version, true, own[j]);
    }
  }

  /** The names of the initrds found for a version. */
  ghost predicate NamesOf(places: set<Place>, version: string, names: seq<string>) {
    && NamesAscend(names)
    && forall n :: n in names <==> Place(version, n) in places && IsCollectedName(version, n, true)
  }

  /** Nothing in the directory of a version is collected as an extra file. */
  ghost predicate NoExtraPlace(places: set<Place>, version: string) {
    forall q | q in places && q.dir == version :: !IsCollectedName(version, q.leaf, false)
  }

  lemma KernelForm(all: seq<Path>, base: Path, version: string)
    requires version !in {"/", ".."} && SharedPaths(all, base + [version]) == []
    ensures VersionOf(base + [version, "vmlinuz"]) == Some(version)
    ensures KernelOf(all, base + [version, "vmlinuz"])
         == Kernel(version, base + [version, "vmlinuz"],
                   SortBy(SortKey, Collected(all, base + [version], version, true)),
                   SortBy(SortKey, Collected(all, base + [version], version, false)), None)
  {
    hide Collected, SharedPaths, SortBy;
    var image := base + [version, "vmlinuz"];
    assert Parent(image) == base + [version];
    assert FileName(base + [version]) == Some(version);
  }

  lemma InitrdsFound(all: seq<Path>, base: Path, places: set<Place>, version: string)
    requires LaidOut(all, base, places) && PlainNames(places) && LeavesDiffer(places)
    ensures var initrd := SortBy(SortKey, Collected(all, base + [version], version, true));
            && NamesOf(places, version, Names(initrd))
            && forall file | file in initrd :: IsOwn(base, places, version, true, file)
  {
    var own := Collected(all, base + [version], version, true);
    hide Collected, PlainNames, LaidOut, IsOwn, SortBy, LeavesDiffer;
    SortByStable(SortKey, own);
    CollectedDiffer(all, base, places, version, own);
    var initrd := SortBy(SortKey, own);
    DistinctPermutes(own, initrd);
    forall file | file in own
      ensures IsOwn(base, places, version, true, file)
    {
      CollectedPlace(all, base, places, version, true, file);
    }
    KernelNames(all, base, places, version, SortBy(SortKey, own));
  }

  /** There are extra files exactly when something is placed under such a name. */
  lemma ExtrasFound(all: seq<Path>, base: Path, places: set<Place>, version: string)
    requires LaidOut(all, base, places) && PlainNames(places)
    ensures SortBy(SortKey, Collected(all, base + [version], version, false)) == [] <==> NoExtraPlace(places, version)
  {
    hide Collected, LaidOut, KindOf, SortBy, IsCollectedName;
    var extras := Collected(all, base + [version], version, false);
    SortByStable(SortKey, extras);
    assert SortBy(SortKey, extras) == [] <==> extras == [] by {
      SameSize(SortBy(SortKey, extras), extras);
    }
    if extras != [] {
      assert extras[0] in extras;
      CollectedPlace(all, base, places, version, false, extras[0]);
    }
    forall q | q in places && q.dir == version && IsCollectedName(version, q.leaf, false)
      ensures extras != []
    {
      var file := AuxFile(base + [version, q.leaf], CollectedKind(version, q.leaf, false));
      LaidOutFiles(all, base, places, version, false, file);
      assert file in extras;
    }
  }

  function CollectedKind(version: string, name: string, initrds: bool): (kind: AuxKind)
    requires IsCollectedName(version, name, initrds)
    ensures KindOf(name) == Some(kind)
  {
    KindOf(name).value
  }

  lemma SameSize<T>(s: seq<T>, t: seq<T>)
    requires multiset(s) == multiset(t)
    ensures |s| == |t|
  {
    assert |s| == |multiset(s)| && |t| == |multiset(t)|;
  }

  /** What discovery makes of one kernel of an installed layout. */
  lemma LaidOutKernel(all: seq<Path>, base: Path, places: set<Place>, version: string)
    requires LaidOut(all, base, places) && PlainNames(places) && LeavesDiffer(places) && HasImage(places, version)
    ensures VersionOf(base + [version, "vmlinuz"]) == Some(version)
    ensures var kernel := KernelOf(all, base + [version, "vmlinuz"]);
            && kernel == Kernel(version, base + [version, "vmlinuz"], kernel.initrd, kernel.extras, None)
            && NamesOf(places, version, Names(kernel.initrd))
            && (forall file | file in kernel.initrd :: IsOwn(base, places, version, true, file))
            && (kernel.extras == [] <==> NoExtraPlace(places, version))
  {
    PlainImage(places, version);
    hide Collected, PlainNames, LaidOut, IsOwn, SortBy, LeavesDiffer, NamesOf, KernelOf, NoExtraPlace;
    LaidOutUnshared(all, base, places, version);
    ExtrasFound(all, base, places, version);
    KernelForm(all, base, version);
    InitrdsFound(all, base, places, version);
  }

  lemma PlainImage(places: set<Place>, version: string)
    requires PlainNames(places) && HasImage(places, version)
    ensures version !in {"/", ".."}
  {
  }

  lemma KernelNames(all: seq<Path>, base: Path, places: set<Place>, version: string, initrd: seq<AuxFile>)
    requires LaidOut(all, base, places) && PlainNames(places) && LeavesDiffer(places)
    requires SortedBy(SortKey, initrd)
    requires forall i, j | 0 <= i < j < |initrd| :: initrd[i] != initrd[j]
    requires forall file :: file in initrd <==> file in Collected(all, base + [version], version, true)
    ensures NamesOf(places, version, Names(initrd))
  {
    hide Collected, LaidOut, KindOf, NameOrEmpty, SortedBy, IsCollectedName;
    forall i, j | 0 <= i < j < |initrd|
      ensures SortKey(initrd[i]) != SortKey(initrd[j])
    {
      CollectedPlace(all, base, places, version, true, initrd[i]);
      CollectedPlace(all, base, places, version, true, initrd[j]);
    }
    SortedAscends(initrd);
    forall n
      ensures n in Names(initrd) <==> Place(version, n) in places && IsCollectedName(version, n, true)
    {
      if n in Names(initrd) {
        var i :| 0 <= i < |initrd| && Names(initrd)[i] == n;
        CollectedPlace(all, base, places, version, true, initrd[i]);
      }
      if Place(version, n) in places && IsCollectedName(version, n, true) {
        var file := AuxFile(base + [version, n], CollectedKind(version, n, true));
        LaidOutFiles(all, base, places, version, true, file);
        PlacedName(base, version, n);
        var i :| 0 <= i < |initrd| && initrd[i] == file;
        assert Names(initrd)[i] == n;
      }
    }
  }

  /** The versions found are those whose image is there; each has its image and its initrds in order. */
  lemma LaidOutDiscovered(all: seq<Path>, base: Path, places: set<Place>)
    requires LaidOut(all, base, places) && PlainNames(places) && LeavesDiffer(places)
    ensures Discovered(all).Ok?
    ensures forall v :: v in Discovered(all).value <==> HasImage(places, v)
    ensures forall v | v in Discovered(all).value ::
              VersionOf(base + [v, "vmlinuz"]) == Some(v)
              && Discovered(all).value[v] == KernelOf(all, base + [v, "vmlinuz"])
  {
    hide PlainNames, LaidOut, LeavesDiffer, HasImage, Images, KernelOf, Loadable, VersionOf;
    var images := Images(all);
    forall v
      ensures v in images <==> HasImage(places, v)
      ensures v in images ==> images[v] == base + [v, "vmlinuz"] && Loadable(all, images[v], v)
      ensures v in images ==> VersionOf(base + [v, "vmlinuz"]) == Some(v)
    {
      LaidOutImages(all, base, places, v);
      if v in images {
        LaidOutReadable(all, base, places, v);
        LaidOutKernel(all, base, places, v);
      }
    }
    assert forall v | v in images :: Loadable(all, images[v], v);
  }
}
