/** What discovery promises of its result: one shared initrd per name, everything else kept, order by name. */
module Overrides {
  import opened Text
  import opened Entries
  import opened Order
  import opened Discovery

  function FileKey(file: AuxFile): string {
    NameOrEmpty(file.path)
  }

  // ---------------------------------------------------------------- which image, which files

  /** A version is found exactly when some image lies in a directory of that name; its greatest path wins. */
  lemma {:induction false} GreatestImage(all: seq<Path>, version: string)
    requires Ascending(all)
    ensures version in Images(all) <==> exists p | p in all :: IsKernelImage(p, version)
    ensures version in Images(all) ==> Images(all)[version] in all && IsKernelImage(Images(all)[version], version)
    ensures version in Images(all) ==>
              forall p | p in all && IsKernelImage(p, version) ::
                p == Images(all)[version] || PathLess(p, Images(all)[version])
  {
    hide PathLess;
    if all != [] {
      var front, last := all[..|all| - 1], Last(all);
      assert all == front + [last];
      GreatestImage(front, version);
      if IsKernelImage(last, version) {
        assert Images(all)[version] == last && last in all;
      } else {
        assert version in Images(all) <==> version in Images(front);
      }
    }
  }

  /** The collected files are exactly those with a known name, each once, in path order. */
  lemma {:induction false} CollectedExactly(all: seq<Path>, dir: Path, version: string, initrds: bool, file: AuxFile)
    ensures file in Collected(all, dir, version, initrds) <==>
              && file.path in all && IsVersioned(file.path, dir, version)
              && KindOf(NameOrEmpty(file.path)) == Some(file.kind) && IsInitrd(file.kind) == initrds
  {
    if all != [] {
      var front, last := all[..|all| - 1], Last(all);
      assert all == front + [last];
      CollectedExactly(front, dir, version, initrds, file);
      hide KindOf, IsVersioned, NameOrEmpty;
      assert file in Contribution(last, dir, version, initrds) <==>
        file.path == last && file in Contribution(file.path, dir, version, initrds);
    }
  }

  lemma {:induction false} CollectedOnce(all: seq<Path>, dir: Path, version: string, initrds: bool)
    requires Ascending(all)
    ensures forall i, j | 0 <= i < j < |Collected(all, dir, version, initrds)| ::
              PathLess(Collected(all, dir, version, initrds)[i].path, Collected(all, dir, version, initrds)[j].path)
  {
    hide PathLess;
    if all != [] {
      var front, last := all[..|all| - 1], Last(all);
      CollectedOnce(front, dir, version, initrds);
      var before := Collected(front, dir, version, initrds);
      forall i | 0 <= i < |before|
        ensures PathLess(before[i].path, last)
      {
        CollectedExactly(front, dir, version, initrds, before[i]);
        var k :| 0 <= k < |front| && front[k] == before[i].path;
        assert PathLess(all[k], all[|all| - 1]);
      }
    }
  }

  lemma {:induction false} SharedExactly(all: seq<Path>, dir: Path, p: Path)
    requires dir != []
    ensures p in SharedPaths(all, dir) <==> p in all && IsShared(p, dir)
  {
    if all != [] {
      SharedExactly(all[..|all| - 1], dir, p);
      assert all == all[..|all| - 1] + [Last(all)];
    }
  }

  lemma {:induction false} SharedAscending(all: seq<Path>, dir: Path)
    requires dir != [] && Ascending(all)
    ensures Ascending(SharedPaths(all, dir))
  {
    hide PathLess, IsShared;
    if all != [] {
      var front, last := all[..|all| - 1], Last(all);
      SharedAscending(front, dir);
      var before := SharedPaths(front, dir);
      forall i | 0 <= i < |before|
        ensures PathLess(before[i], last)
      {
        SharedExactly(front, dir, before[i]);
        var k :| 0 <= k < |front| && front[k] == before[i];
        assert PathLess(all[k], all[|all| - 1]);
      }
    }
  }

  // ---------------------------------------------------------------- overriding

  lemma {:induction false} WithoutNamed(list: seq<AuxFile>, gone: string, name: string)
    ensures WithKey(FileKey, Without(list, gone), name) == if name == gone then [] else WithKey(FileKey, list, name)
  {
    if list != [] {
      var front, last := list[..|list| - 1], Last(list);
      assert list == front + [last];
      WithoutNamed(front, gone, name);
      WithKeyConcat(FileKey, front, [last], name);
      WithKeyConcat(FileKey, Without(front, gone), if NameOrEmpty(last.path) != gone then [last] else [], name);
    }
  }

  /** A name no shared initrd has is left as it was. */
  lemma {:induction false} OverrideKeeps(list: seq<AuxFile>, shared: seq<Path>, name: string)
    requires forall p | p in shared :: NameOrEmpty(p) != name
    ensures WithKey(FileKey, Override(list, shared), name) == WithKey(FileKey, list, name)
  {
    if shared != [] {
      var front, last := shared[..|shared| - 1], Last(shared);
      OverrideKeeps(list, front, name);
      assert last in shared;
      WithoutNamed(Override(list, front), NameOrEmpty(last), name);
      WithKeyConcat(FileKey, Without(Override(list, front), NameOrEmpty(last)), [AuxFile(last, SharedInitRd)], name);
    }
  }

  /** Of a name that shared initrds have, only the last of them is left. */
  lemma {:induction false} OverrideReplaces(list: seq<AuxFile>, shared: seq<Path>, i: nat, name: string)
    requires i < |shared| && NameOrEmpty(shared[i]) == name
    requires forall j | i < j < |shared| :: NameOrEmpty(shared[j]) != name
    ensures WithKey(FileKey, Override(list, shared), name) == [AuxFile(shared[i], SharedInitRd)]
  {
    var front, last := shared[..|shared| - 1], Last(shared);
    var added := AuxFile(last, SharedInitRd);
    WithoutNamed(Override(list, front), NameOrEmpty(last), name);
    WithKeyConcat(FileKey, Without(Override(list, front), NameOrEmpty(last)), [added], name);
    if i < |shared| - 1 {
      OverrideReplaces(list, front, i, name);
    }
  }

  // ---------------------------------------------------------------- sorting

  lemma {:induction false} NamedWithinKey(list: seq<AuxFile>, name: string)
    ensures WithKey(FileKey, WithKey(SortKey, list, Fold(name)), name) == WithKey(FileKey, list, name)
  {
    if list != [] {
      NamedWithinKey(list[1..], name);
      var head := if SortKey(list[0]) == Fold(name) then [list[0]] else [];
      WithKeyConcat(FileKey, head, WithKey(SortKey, list[1..], Fold(name)), name);
    }
  }

  /** Sorting does not change which files of a name there are, nor their order. */
  lemma SortingKeepsNames(list: seq<AuxFile>, name: string)
    ensures WithKey(FileKey, SortBy(SortKey, list), name) == WithKey(FileKey, list, name)
  {
    SortByStable(SortKey, list);
    NamedWithinKey(list, name);
    NamedWithinKey(SortBy(SortKey, list), name);
  }

  // ---------------------------------------------------------------- the shared initrd override

  /** The greatest path below `initrd.d` with a name. */
  ghost predicate IsOverride(all: seq<Path>, dir: Path, name: string, p: Path)
    requires dir != []
  {
    && p in all && IsShared(p, dir) && NameOrEmpty(p) == name
    && forall q | q in all && IsShared(q, dir) && NameOrEmpty(q) == name :: q == p || PathLess(q, p)
  }

  ghost predicate OccursShared(all: seq<Path>, dir: Path, name: string)
    requires dir != []
  {
    exists q | q in all :: IsShared(q, dir) && NameOrEmpty(q) == name
  }

  /** Of several paths with a name there is a greatest. */
  lemma {:induction false} GreatestShared(all: seq<Path>, dir: Path, name: string) returns (p: Path)
    requires Ascending(all) && dir != [] && OccursShared(all, dir, name)
    ensures IsOverride(all, dir, name, p)
  {
    hide PathLess, IsShared, NameOrEmpty;
    var front, last := all[..|all| - 1], Last(all);
    assert all == front + [last];
    assert forall q | q in front :: PathLess(q, last);
    if IsShared(last, dir) && NameOrEmpty(last) == name {
      p := last;
    } else {
      p := GreatestShared(front, dir, name);
    }
  }

  /** Of a name occurring below `initrd.d` every kernel has one initrd, the shared one at the greatest path. */
  lemma SharedOverrides(all: seq<Path>, image: Path, name: string) returns (p: Path)
    requires Ascending(all) && |image| > 1 && VersionOf(image).Some? && OccursShared(all, Parent(image), name)
    ensures IsOverride(all, Parent(image), name, p)
    ensures WithKey(FileKey, KernelOf(all, image).initrd, name) == [AuxFile(p, SharedInitRd)]
  {
    p := GreatestShared(all, Parent(image), name);
    hide PathLess, IsShared, Override, Collected, SharedPaths, SortBy;
    PathOrder();
    var dir, version := Parent(image), VersionOf(image).value;
    var shared := SharedPaths(all, dir);
    SharedAscending(all, dir);
    SharedExactly(all, dir, p);
    var i :| 0 <= i < |shared| && shared[i] == p;
    forall j | i < j < |shared|
      ensures NameOrEmpty(shared[j]) != name
    {
      SharedExactly(all, dir, shared[j]);
      assert PathLess(shared[i], shared[j]);
    }
    var own := Collected(all, dir, version, true);
    OverrideReplaces(own, shared, i, name);
    SortingKeepsNames(Override(own, shared), name);
  }

  /** Of any other name a kernel keeps the initrds it has below its own directory, in order. */
  lemma OthersSurvive(all: seq<Path>, image: Path, name: string)
    requires |image| > 1 && VersionOf(image).Some?
    requires forall q | q in all && IsShared(q, Parent(image)) :: NameOrEmpty(q) != name
    ensures WithKey(FileKey, KernelOf(all, image).initrd, name)
         == WithKey(FileKey, Collected(all, Parent(image), VersionOf(image).value, true), name)
  {
    hide IsShared, Override, Collected, SharedPaths, SortBy;
    var dir, version := Parent(image), VersionOf(image).value;
    var shared := SharedPaths(all, dir);
    forall p | p in shared
      ensures NameOrEmpty(p) != name
    {
      SharedExactly(all, dir, p);
    }
    var own := Collected(all, dir, version, true);
    OverrideKeeps(own, shared, name);
    SortingKeepsNames(Override(own, shared), name);
  }

  /** The lower-cased names are in dictionary order. */
  ghost predicate NamesInOrder(files: seq<AuxFile>) {
    forall i, j | 0 <= i < j < |files| ::
      InDictionaryOrder(Fold(NameOrEmpty(files[i].path)), Fold(NameOrEmpty(files[j].path)))
  }

  lemma SortedNames(files: seq<AuxFile>)
    requires SortedBy(SortKey, files)
    ensures NamesInOrder(files)
  {
    hide StringLess, InDictionaryOrder;
    forall i, j | 0 <= i < j < |files|
      ensures InDictionaryOrder(Fold(NameOrEmpty(files[i].path)), Fold(NameOrEmpty(files[j].path)))
    {
      DictionaryOrder(Fold(NameOrEmpty(files[i].path)), Fold(NameOrEmpty(files[j].path)));
    }
  }

  /** Both lists are in order of lower-cased names, and hold what was collected. */
  lemma ListsSorted(all: seq<Path>, image: Path)
    requires |image| > 1 && VersionOf(image).Some?
    ensures var dir, version, kernel := Parent(image), VersionOf(image).value, KernelOf(all, image);
            && StablySorts(SortKey, Override(Collected(all, dir, version, true), SharedPaths(all, dir)), kernel.initrd)
            && multiset(kernel.initrd) == multiset(Override(Collected(all, dir, version, true), SharedPaths(all, dir)))
            && StablySorts(SortKey, Collected(all, dir, version, false), kernel.extras)
            && multiset(kernel.extras) == multiset(Collected(all, dir, version, false))
            && NamesInOrder(kernel.initrd) && NamesInOrder(kernel.extras)
  {
    hide Override, Collected, SharedPaths, SortBy;
    var dir, version := Parent(image), VersionOf(image).value;
    SortByStable(SortKey, Override(Collected(all, dir, version, true), SharedPaths(all, dir)));
    SortByStable(SortKey, Collected(all, dir, version, false));
    SortedNames(KernelOf(all, image).initrd);
    SortedNames(KernelOf(all, image).extras);
  }

  // ---------------------------------------------------------------- a function of the path set

  /** Neither the order nor the repetition of the given paths matters, nor that of the kernels returned. */
  lemma DiscoveryOfSet(paths: seq<Path>, others: seq<Path>, kernels: seq<Kernel>, found: seq<Kernel>)
    requires forall p :: p in paths <==> p in others
    ensures Discovered(TreeSet(paths)) == Discovered(TreeSet(others))
    ensures Discovered(TreeSet(paths)).Ok? ==>
              (IsValues(kernels, Discovered(TreeSet(paths)).value) && IsValues(found, Discovered(TreeSet(others)).value)
               ==> multiset(kernels) == multiset(found))
  {
    hide Discovered, TreeSet;
    TreeSetOfSet(paths, others);
    if Discovered(TreeSet(paths)).Ok? {
      var m := Discovered(TreeSet(paths)).value;
      if IsValues(kernels, m) && IsValues(found, m) {
        OneEach(kernels, m);
        OneEach(found, m);
      }
    }
  }

  lemma OneEach(kernels: seq<Kernel>, m: map<string, Kernel>)
    requires IsValues(kernels, m)
    ensures forall k :: multiset(kernels)[k] == if k.version in m && m[k.version] == k then 1 else 0
  {
    forall k
      ensures multiset(kernels)[k] == if k.version in m && m[k.version] == k then 1 else 0
    {
      if k.version in m && m[k.version] == k {
        var i :| 0 <= i < |kernels| && kernels[i] == k;
        Once(kernels, i);
      }
    }
  }

  // ---------------------------------------------------------------- kernels as discovery leaves them

  function OwnInitrds(files: seq<AuxFile>): seq<AuxFile> {
    if files == [] then []
    else OwnInitrds(files[..|files| - 1]) + if Last(files).kind.VersionedInitRd? then [Last(files)] else []
  }

  /** An initrd named as discovery names them. */
  predicate IsOrderly(version: string, file: AuxFile) {
    var name := NameOrEmpty(file.path);
    && EndsWith(name, ".initrd")
    && (file.kind.VersionedInitRd? ==> KindOf(name) == Some(VersionedInitRd) && name != version)
    && (file.kind.VersionedInitRd? || file.kind.SharedInitRd?)
  }

  /** What discovery guarantees of a kernel. */
  ghost predicate Orderly(kernel: Kernel) {
    && FileName([kernel.version]).Some? && FileName(kernel.image) == Some("vmlinuz")
    && SortedBy(SortKey, kernel.initrd)
    && forall file | file in kernel.initrd :: IsOrderly(kernel.version, file)
  }

  lemma {:induction false} OverrideFrom(list: seq<AuxFile>, shared: seq<Path>, file: AuxFile)
    requires file in Override(list, shared)
    ensures file in list || (file.kind.SharedInitRd? && file.path in shared)
  {
    if shared != [] {
      var front, last := shared[..|shared| - 1], Last(shared);
      if file != AuxFile(last, SharedInitRd) {
        WithoutFrom(Override(list, front), NameOrEmpty(last), file);
        OverrideFrom(list, front, file);
      } else {
        assert last in shared;
      }
    }
  }

  lemma {:induction false} WithoutFrom(list: seq<AuxFile>, name: string, file: AuxFile)
    requires file in Without(list, name)
    ensures file in list
  {
    if file != Last(list) {
      WithoutFrom(list[..|list| - 1], name, file);
    }
  }

  lemma SortedFrom(list: seq<AuxFile>, file: AuxFile)
    requires file in SortBy(SortKey, list)
    ensures file in list
  {
    SortByStable(SortKey, list);
    hide SortBy;
    assert file in multiset(SortBy(SortKey, list));
  }

  lemma InitrdOrderly(all: seq<Path>, dir: Path, version: string, file: AuxFile)
    requires dir != [] && file in Override(Collected(all, dir, version, true), SharedPaths(all, dir))
    ensures IsOrderly(version, file)
  {
    hide Collected, SharedPaths, Override, IsOrderly;
    OverrideFrom(Collected(all, dir, version, true), SharedPaths(all, dir), file);
    if file in Collected(all, dir, version, true) {
      CollectedExactly(all, dir, version, true, file);
      OwnOrderly(dir, version, file);
    } else {
      SharedExactly(all, dir, file.path);
      SharedOrderly(dir, version, file);
    }
  }

  lemma SharedOrderly(dir: Path, version: string, file: AuxFile)
    requires dir != [] && IsShared(file.path, dir) && file.kind.SharedInitRd?
    ensures IsOrderly(version, file)
  {
  }

  lemma KernelOrderly(all: seq<Path>, image: Path, version: string)
    requires |image| >= 2 && IsKernelImage(image, version)
    ensures Orderly(KernelOf(all, image)) && KernelOf(all, image).version == version
  {
    hide Collected, SharedPaths, Override, SortBy, IsOrderly, SortedBy, WithKey, KindOf;
    var dir, kernel := Parent(image), KernelOf(all, image);
    var initrd := Override(Collected(all, dir, version, true), SharedPaths(all, dir));
    SortByStable(SortKey, initrd);
    forall file | file in kernel.initrd
      ensures IsOrderly(version, file)
    {
      SortedFrom(initrd, file);
      InitrdOrderly(all, dir, version, file);
    }
  }

  /** Discovery finds orderly kernels only. */
  lemma DiscoveredOrderly(all: seq<Path>, version: string)
    requires Discovered(all).Ok? && version in Discovered(all).value
    ensures Orderly(Discovered(all).value[version]) && Discovered(all).value[version].version == version
  {
    hide Images, Loadable, KernelOf, Orderly;
    ImagesSound(all);
    KernelOrderly(all, Images(all)[version], version);
  }

  lemma OwnOrderly(dir: Path, version: string, file: AuxFile)
    requires IsVersioned(file.path, dir, version) && dir != []
    requires KindOf(NameOrEmpty(file.path)) == Some(file.kind) && IsInitrd(file.kind)
    ensures IsOrderly(version, file)
  {
    var name := NameOrEmpty(file.path);
    if EndsWith(name, "-shared.initrd") {
      assert name[|name| - 7..] == name[|name| - 14..][7..] == ".initrd";
    }
  }
}
