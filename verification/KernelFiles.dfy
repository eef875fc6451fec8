/**
 What discovery makes of a collection of paths, told by their components and characters: which versions are
 found, with which image, initrds and extra files, and in which order.
 */
module KernelFiles {
  import opened Text
  import opened Entries
  import opened Order
  import opened Discovery
  import opened Overrides

  // ---------------------------------------------------------------- names

  ghost predicate Ends(name: string, suffix: string) {
    exists front: string :: name == front + suffix
  }

  lemma EndsIs(name: string, suffix: string)
    ensures Ends(name, suffix) <==> EndsWith(name, suffix)
  {
    if front: string :| name == front + suffix {
      assert name[|name| - |suffix|..] == suffix;
    }
    if EndsWith(name, suffix) {
      assert name == name[..|name| - |suffix|] + suffix;
    }
  }

  /** The names of the files of each kind. */
  ghost predicate IsNameOf(name: string, kind: AuxKind) {
    match kind
    case SystemMap => name == "System.map"
    case BootJson => name == "boot.json"
    case Config => name == "config"
    case Cmdline => Ends(name, ".cmdline")
    case SharedInitRd => Ends(name, "-shared.initrd")
    case VersionedInitRd => Ends(name, ".initrd") && !Ends(name, "-shared.initrd")
  }

  lemma EndsApart(name: string)
    ensures EndsWith(name, "-shared.initrd") ==> EndsWith(name, ".initrd")
    ensures EndsWith(name, ".initrd") ==> !EndsWith(name, ".cmdline")
    ensures name in {"System.map", "boot.json", "config"} ==>
              !EndsWith(name, ".initrd") && !EndsWith(name, ".cmdline")
  {
    if EndsWith(name, "-shared.initrd") {
      assert name[|name| - 7..] == name[|name| - 14..][7..] == ".initrd";
    }
    assert EndsWith(name, ".initrd") ==> Last(name) == name[|name| - 7..][6] == 'd';
    assert EndsWith(name, ".cmdline") ==> Last(name) == name[|name| - 8..][7] == 'e';
    assert EndsWith(name, ".cmdline") ==> name[|name| - 2] == name[|name| - 8..][6] == 'n';
  }

  lemma KindsByName(name: string, kind: AuxKind)
    ensures KindOf(name) == Some(kind) <==> IsNameOf(name, kind)
  {
    EndsApart(name);
    EndsIs(name, ".cmdline");
    EndsIs(name, "-shared.initrd");
    EndsIs(name, ".initrd");
    hide EndsWith, Ends;
  }

  // ---------------------------------------------------------------- which image

  /** An image of a version: its last two components. */
  predicate IsImageOf(p: Path, version: string) {
    |p| >= 2 && p[|p| - 1] == "vmlinuz" && p[|p| - 2] == version && version != "/" && version != ".."
  }

  /** The greatest path of those that are images of a version. */
  ghost predicate IsChosen(paths: seq<Path>, version: string, image: Path) {
    && image in paths && IsImageOf(image, version)
    && forall p | p in paths && IsImageOf(p, version) :: p == image || PathBefore(p, image)
  }

  lemma ImageIs(p: Path, version: string)
    ensures IsKernelImage(p, version) <==> IsImageOf(p, version)
  {
    if |p| >= 2 {
      assert Last(Parent(p)) == p[|p| - 2];
    }
  }

  /** The versions with an image, each with the image that is chosen. */
  lemma ImagesChosen(paths: seq<Path>, version: string)
    ensures version in Images(TreeSet(paths)) <==> exists p | p in paths :: IsImageOf(p, version)
    ensures version in Images(TreeSet(paths)) ==> IsChosen(paths, version, Images(TreeSet(paths))[version])
  {
    hide TreeSet, Images, PathLess, PathBefore, IsImageOf, IsKernelImage;
    var all := TreeSet(paths);
    TreeSetHolds(paths);
    GreatestImage(all, version);
    forall p
      ensures IsKernelImage(p, version) <==> IsImageOf(p, version)
    {
      ImageIs(p, version);
    }
    if version in Images(all) {
      var image := Images(all)[version];
      forall p | p in paths && IsImageOf(p, version)
        ensures p == image || PathBefore(p, image)
      {
        PathsOrder(p, image);
      }
    }
  }

  /** A path looked at as a file of the kernel of an image. */
  predicate IsWithin(p: Path, image: Path, version: string)
    requires image != []
  {
    Parent(image) <= p && p != [] && Last(p) != "vmlinuz" && Last(p) != version
  }

  /** Every file of the kernel of an image has a name. */
  ghost predicate AllHaveNames(paths: seq<Path>, version: string, image: Path)
    requires image != []
  {
    forall p | p in paths && IsWithin(p, image, version) :: Last(p) != "/" && Last(p) != ".."
  }

  lemma ReadableIs(paths: seq<Path>, version: string, image: Path)
    requires IsImageOf(image, version)
    ensures Readable(TreeSet(paths), Parent(image), version) <==> AllHaveNames(paths, version, image)
  {
    hide TreeSet;
    TreeSetHolds(paths);
  }

  lemma ChosenOnce(paths: seq<Path>, version: string, image: Path, other: Path)
    requires IsChosen(paths, version, image) && IsChosen(paths, version, other)
    ensures image == other
  {
    hide PathBefore, PathLess, IsImageOf;
    PathOrder();
    PathsOrder(image, other);
    PathsOrder(other, image);
  }

  /** Discovery fails exactly when, below the directory of an image that is chosen, something has no name. */
  lemma FailsExactly(paths: seq<Path>)
    ensures Discovered(TreeSet(paths)).Ok? <==>
              forall version, image | IsChosen(paths, version, image) ::
                forall p | p in paths && IsWithin(p, image, version) :: Last(p) != "/" && Last(p) != ".."
  {
    hide TreeSet, Images, IsChosen, Readable, IsImageOf, IsWithin, KernelOf;
    var all := TreeSet(paths);
    var images := Images(all);
    forall v | v in images
      ensures IsChosen(paths, v, images[v]) && images[v] != []
      ensures Loadable(all, images[v], v) <==> AllHaveNames(paths, v, images[v])
    {
      ImagesChosen(paths, v);
      ChosenImage(paths, v, images[v]);
      ReadableIs(paths, v, images[v]);
    }
    forall v, image | IsChosen(paths, v, image)
      ensures v in images && images[v] == image
    {
      ImagesChosen(paths, v);
      ChosenImage(paths, v, image);
      ChosenOnce(paths, v, image, images[v]);
    }
    hide Loadable;
    assert Discovered(all).Ok? <==> forall v | v in images :: Loadable(all, images[v], v);
  }

  lemma ChosenImage(paths: seq<Path>, version: string, image: Path)
    requires IsChosen(paths, version, image)
    ensures image in paths && IsImageOf(image, version) && |image| >= 2 && IsKernelImage(image, version)
  {
    hide PathBefore;
    ImageIs(image, version);
  }

  /** A version is found exactly when it has an image, with the greatest of its images. */
  lemma VersionsExactly(paths: seq<Path>, version: string)
    requires Discovered(TreeSet(paths)).Ok?
    ensures var found := Discovered(TreeSet(paths)).value;
            && (version in found <==> exists p | p in paths :: IsImageOf(p, version))
            && (version in found ==>
                  && found[version].version == version && found[version].variant == None
                  && IsChosen(paths, version, found[version].image))
  {
    hide TreeSet, Images, IsChosen, Loadable, IsImageOf;
    ImagesChosen(paths, version);
    if version in Images(TreeSet(paths)) {
      ChosenImage(paths, version, Images(TreeSet(paths))[version]);
      KernelIs(paths, version);
    }
  }

  /** The kernel found for a version. */
  lemma KernelIs(paths: seq<Path>, version: string)
    requires Discovered(TreeSet(paths)).Ok? && version in Images(TreeSet(paths))
    ensures var image, found := Images(TreeSet(paths))[version], Discovered(TreeSet(paths)).value;
            && VersionOf(image) == Some(version) && |image| >= 2
            && version in found && found[version] == KernelOf(TreeSet(paths), image)
            && found[version].image == image && found[version].version == version && found[version].variant == None
  {
    hide TreeSet, Images, IsChosen, SortBy, Override, Collected, SharedPaths;
    ImagesChosen(paths, version);
    ChosenImage(paths, version, Images(TreeSet(paths))[version]);
  }

  // ---------------------------------------------------------------- which files

  /** A file below the directory of a kernel, of a kind told by its name. */
  ghost predicate IsOwnFile(paths: seq<Path>, kernel: Kernel, file: AuxFile) {
    && file.path in paths && kernel.image != [] && IsWithin(file.path, kernel.image, kernel.version)
    && IsNameOf(Last(file.path), file.kind)
  }

  /** A path below the directory of shared initrds beside the directory of a kernel. */
  ghost predicate IsBeside(p: Path, kernel: Kernel) {
    && |kernel.image| >= 2 && p != []
    && kernel.image[..|kernel.image| - 2] + ["initrd.d"] <= p && Ends(Last(p), ".initrd")
  }

  /** The greatest path of its name among the shared initrds. */
  ghost predicate Prevails(paths: seq<Path>, kernel: Kernel, p: Path) {
    && p in paths && IsBeside(p, kernel)
    && forall q | q in paths && IsBeside(q, kernel) && Last(q) == Last(p) :: q == p || PathBefore(q, p)
  }

  lemma OwnIs(paths: seq<Path>, kernel: Kernel, file: AuxFile, initrds: bool)
    requires IsImageOf(kernel.image, kernel.version)
    ensures file in Collected(TreeSet(paths), Parent(kernel.image), kernel.version, initrds) <==>
              IsOwnFile(paths, kernel, file) && (file.kind.VersionedInitRd? || file.kind.SharedInitRd?) == initrds
  {
    hide TreeSet, Collected, KindOf, IsNameOf;
    TreeSetHolds(paths);
    CollectedExactly(TreeSet(paths), Parent(kernel.image), kernel.version, initrds, file);
    KindsByName(NameOrEmpty(file.path), file.kind);
    NamedNames(file.path, file.kind);
  }

  /** What has a known name has a name. */
  lemma NamedNames(p: Path, kind: AuxKind)
    ensures IsNameOf(NameOrEmpty(p), kind) ==> p != [] && NameOrEmpty(p) == Last(p)
    ensures p != [] && IsNameOf(Last(p), kind) ==> NameOrEmpty(p) == Last(p) && Last(p) != "vmlinuz"
  {
    EndsIs("", ".initrd");
    EndsIs("", ".cmdline");
    EndsIs("", "-shared.initrd");
    if p != [] {
      EndsIs(Last(p), ".initrd");
      EndsIs(Last(p), ".cmdline");
      EndsIs(Last(p), "-shared.initrd");
    }
    hide Ends;
  }

  /** The extra files of a kernel: those of its own that are no initrds. */
  lemma ExtrasExactly(paths: seq<Path>, version: string, file: AuxFile)
    requires Discovered(TreeSet(paths)).Ok? && version in Discovered(TreeSet(paths)).value
    ensures var kernel := Discovered(TreeSet(paths)).value[version];
            file in kernel.extras <==>
              IsOwnFile(paths, kernel, file) && !file.kind.VersionedInitRd? && !file.kind.SharedInitRd?
  {
    hide TreeSet, Images, SortBy, Override, Collected, SharedPaths, IsChosen, IsOwnFile;
    KernelIs(paths, version);
    var kernel := Discovered(TreeSet(paths)).value[version];
    ImagesChosen(paths, version);
    ChosenImage(paths, version, kernel.image);
    OwnIs(paths, kernel, file, false);
    ListsSorted(TreeSet(paths), kernel.image);
    assert file in kernel.extras <==> file in multiset(kernel.extras);
  }

  lemma BesideIs(p: Path, kernel: Kernel)
    requires |kernel.image| >= 2
    ensures IsShared(p, Parent(kernel.image)) <==> IsBeside(p, kernel)
    ensures IsBeside(p, kernel) ==> p != [] && NameOrEmpty(p) == Last(p)
  {
    assert Parent(Parent(kernel.image)) == kernel.image[..|kernel.image| - 2];
    EndsIs("", ".initrd");
    EndsIs(NameOrEmpty(p), ".initrd");
    if p != [] {
      EndsIs(Last(p), ".initrd");
    }
    hide Ends;
  }

  lemma {:induction false} NamedIn(list: seq<AuxFile>, file: AuxFile)
    ensures file in list <==> file in WithKey(FileKey, list, FileKey(file))
  {
    if list != [] {
      NamedIn(list[1..], file);
      assert list == [list[0]] + list[1..];
    }
  }

  /** The shared initrd that prevails for a name is the one that overrides the others. */
  lemma PrevailsIs(paths: seq<Path>, kernel: Kernel, p: Path, name: string)
    requires |kernel.image| >= 2
    ensures IsOverride(TreeSet(paths), Parent(kernel.image), name, p) <==>
              Prevails(paths, kernel, p) && Last(p) == name
  {
    hide TreeSet, IsShared, IsBeside, PathLess, PathBefore;
    TreeSetHolds(paths);
    forall q
      ensures IsShared(q, Parent(kernel.image)) <==> IsBeside(q, kernel)
      ensures IsBeside(q, kernel) ==> q != [] && NameOrEmpty(q) == Last(q)
      ensures PathLess(q, p) <==> PathBefore(q, p)
    {
      BesideIs(q, kernel);
      PathsOrder(q, p);
    }
  }

  lemma OneOverride(all: seq<Path>, dir: Path, name: string, p: Path, q: Path)
    requires dir != [] && IsOverride(all, dir, name, p) && IsOverride(all, dir, name, q)
    ensures p == q
  {
    hide PathLess, IsShared;
    PathOrder();
  }

  /** Whether a shared initrd has the name of a file. */
  ghost predicate IsOverridden(paths: seq<Path>, kernel: Kernel, p: Path) {
    p != [] && exists q | q in paths :: IsBeside(q, kernel) && Last(q) == Last(p)
  }

  lemma OverriddenIs(paths: seq<Path>, kernel: Kernel, p: Path)
    requires |kernel.image| >= 2 && p != [] && NameOrEmpty(p) == Last(p)
    ensures IsOverridden(paths, kernel, p) <==> OccursShared(TreeSet(paths), Parent(kernel.image), Last(p))
  {
    hide TreeSet, IsShared, IsBeside;
    TreeSetHolds(paths);
    forall q
      ensures IsShared(q, Parent(kernel.image)) <==> IsBeside(q, kernel)
      ensures IsBeside(q, kernel) ==> q != [] && NameOrEmpty(q) == Last(q)
    {
      BesideIs(q, kernel);
    }
  }

  /**
   The initrds of a kernel: of every name occurring below `initrd.d` the greatest path, as a shared one, and of every
   other name its own.
   */
  lemma InitrdsExactly(paths: seq<Path>, version: string, file: AuxFile)
    requires Discovered(TreeSet(paths)).Ok? && version in Discovered(TreeSet(paths)).value
    ensures var kernel := Discovered(TreeSet(paths)).value[version];
            file in kernel.initrd <==>
              || (file.kind.SharedInitRd? && Prevails(paths, kernel, file.path))
              || (IsOwnFile(paths, kernel, file) && (file.kind.VersionedInitRd? || file.kind.SharedInitRd?)
                  && !IsOverridden(paths, kernel, file.path))
  {
    hide TreeSet, Images, SortBy, Override, Collected, SharedPaths, IsChosen, IsOwnFile, Prevails, IsOverridden,
         IsOverride, OccursShared, WithKey;
    KernelIs(paths, version);
    var all, kernel := TreeSet(paths), Discovered(TreeSet(paths)).value[version];
    ImagesChosen(paths, version);
    ChosenImage(paths, version, kernel.image);
    InitrdIs(paths, kernel, file);
  }

  /** For files that count the name is the last component. */
  lemma NamesAgree(paths: seq<Path>, kernel: Kernel, file: AuxFile)
    requires |kernel.image| >= 2
    ensures IsOwnFile(paths, kernel, file) || Prevails(paths, kernel, file.path)
            ==> file.path != [] && NameOrEmpty(file.path) == Last(file.path)
    ensures IsOwnFile(paths, kernel, file) ==>
              (IsOverridden(paths, kernel, file.path)
               <==> OccursShared(TreeSet(paths), Parent(kernel.image), NameOrEmpty(file.path)))
    ensures Prevails(paths, kernel, file.path) ==>
              OccursShared(TreeSet(paths), Parent(kernel.image), NameOrEmpty(file.path))
  {
    hide TreeSet, IsBeside, IsNameOf, IsOverridden, OccursShared;
    if IsOwnFile(paths, kernel, file) {
      NamedNames(file.path, file.kind);
      OverriddenIs(paths, kernel, file.path);
    }
    if Prevails(paths, kernel, file.path) {
      BesideIs(file.path, kernel);
      OverriddenIs(paths, kernel, file.path);
      PrevailsOver(paths, kernel, file.path);
    }
  }

  lemma PrevailsOver(paths: seq<Path>, kernel: Kernel, p: Path)
    requires Prevails(paths, kernel, p)
    ensures IsOverridden(paths, kernel, p)
  {
    hide PathBefore;
  }

  lemma NoneBeside(all: seq<Path>, dir: Path, name: string)
    requires dir != [] && !OccursShared(all, dir, name)
    ensures forall q | q in all && IsShared(q, dir) :: NameOrEmpty(q) != name
  {
    hide IsShared;
  }

  lemma InitrdIs(paths: seq<Path>, kernel: Kernel, file: AuxFile)
    requires IsImageOf(kernel.image, kernel.version) && VersionOf(kernel.image) == Some(kernel.version)
    requires kernel == KernelOf(TreeSet(paths), kernel.image)
    ensures file in kernel.initrd <==>
              || (file.kind.SharedInitRd? && Prevails(paths, kernel, file.path))
              || (IsOwnFile(paths, kernel, file) && (file.kind.VersionedInitRd? || file.kind.SharedInitRd?)
                  && !IsOverridden(paths, kernel, file.path))
  {
    hide TreeSet, SortBy, Override, Collected, SharedPaths, IsOwnFile, Prevails, IsOverridden, IsOverride, OccursShared,
         WithKey, IsImageOf, KernelOf;
    var all, dir, name := TreeSet(paths), Parent(kernel.image), NameOrEmpty(file.path);
    TreeSetHolds(paths);
    NamedIn(kernel.initrd, file);
    OwnIs(paths, kernel, file, true);
    NamesAgree(paths, kernel, file);
    PrevailsIs(paths, kernel, file.path, name);
    if OccursShared(all, dir, name) {
      var p := SharedOverrides(all, kernel.image, name);
      if file.kind.SharedInitRd? && Prevails(paths, kernel, file.path) {
        OneOverride(all, dir, name, p, file.path);
      }
    } else {
      NoneBeside(all, dir, name);
      OthersSurvive(all, kernel.image, name);
      NamedIn(Collected(all, dir, kernel.version, true), file);
    }
  }

  // ---------------------------------------------------------------- in which order

  /** Initrds and extra files stand in dictionary order of their lower-cased names. */
  lemma FilesInOrder(paths: seq<Path>, version: string)
    requires Discovered(TreeSet(paths)).Ok? && version in Discovered(TreeSet(paths)).value
    ensures var kernel := Discovered(TreeSet(paths)).value[version];
            && (forall file | file in kernel.initrd + kernel.extras :: file.path != [])
            && (forall i, j | 0 <= i < j < |kernel.initrd| ::
                  InDictionaryOrder(Fold(Last(kernel.initrd[i].path)), Fold(Last(kernel.initrd[j].path))))
            && (forall i, j | 0 <= i < j < |kernel.extras| ::
                  InDictionaryOrder(Fold(Last(kernel.extras[i].path)), Fold(Last(kernel.extras[j].path))))
  {
    hide TreeSet, Images, SortBy, Override, Collected, SharedPaths, IsChosen, IsOwnFile, Prevails, IsOverridden,
         WithKey, IsImageOf, InDictionaryOrder, StringLess, IsWithin, KernelOf;
    KernelIs(paths, version);
    var kernel := Discovered(TreeSet(paths)).value[version];
    ListsSorted(TreeSet(paths), kernel.image);
    forall file | file in kernel.initrd + kernel.extras
      ensures file.path != [] && NameOrEmpty(file.path) == Last(file.path)
    {
      InitrdsExactly(paths, version, file);
      ExtrasExactly(paths, version, file);
      NamesAgree(paths, kernel, file);
    }
    NamesAreLast(kernel.initrd);
    NamesAreLast(kernel.extras);
  }

  lemma NamesAreLast(files: seq<AuxFile>)
    requires NamesInOrder(files)
    requires forall file | file in files :: file.path != [] && NameOrEmpty(file.path) == Last(file.path)
    ensures forall i, j | 0 <= i < j < |files| ::
              InDictionaryOrder(Fold(Last(files[i].path)), Fold(Last(files[j].path)))
  {
    hide InDictionaryOrder, NameOrEmpty;
    assert forall i | 0 <= i < |files| :: files[i] in files;
  }
}
