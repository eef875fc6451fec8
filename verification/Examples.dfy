/**
 Concrete requests and volumes: on which a synchronisation does not converge, or does beyond the usual case; on
 which other kernels are read back than were synchronised; and on which a power cut leaves a configuration dangling.
 */
module Examples {
  import opened Text
  import opened Fat
  import opened AtomicCopy
  import opened Compare
  import opened Conf
  import opened Entries
  import opened Assets
  import opened SyncPlan
  import opened Wanted
  import opened Convergence
  import opened Outcome
  import opened Effects
  import opened Frame
  import opened Scaffold
  import opened Turns
  import opened Exactness
  import opened Feasible
  import opened ConfRefs
  import opened Cuts
  import opened RunShape
  import opened Integrity
  import opened PowerCut
  import opened Removal
  import opened Exposure
  import opened Discovery
  import opened Overrides
  import opened Installed
  import opened RoundTrip
  import opened Rediscovery

  const OS := Blsforme(OsRelease("Example", "example", None))

  function ImagePath(version: string): Path {
    ["lib", "kernel", version, "vmlinuz"]
  }

  /** A kernel without initrds. */
  function KernelItem(version: string, state: int, image: Content): Item {
    var entry := Entry(Kernel(version, ImagePath(version), [], [], None), [], [], Some(state), None);
    Item(HashedEntry(entry, HashedAsset(Image, version, ImagePath(version), "vmlinuz", Blake3(image)), []), "quiet")
  }

  function ImageKey(version: string): AssetKey {
    AssetKey(Versioned(version), "vmlinuz")
  }

  /** Where the image of a kernel goes, if it is the only one of its version. */
  function ImageDest(version: string): Path {
    ["EFI", "example", version, "vmlinuz"]
  }

  lemma ItemDest(req: Request, version: string, state: int, image: Content)
    requires req.schema == OS && |Recorded(req.table, ImageKey(version))| <= 1
    ensures var item := KernelItem(version, state, image);
            && item.entry.Assets() == [item.entry.image]
            && WantedDest(req, item, item.entry.image) == ImageDest(version)
            && !EffectiveSchema(req, item).Legacy?
  {
    assert "vmlinuz" + "" == "vmlinuz";
  }

  // ---------------------------------------------------------------- a directory in another case

  function OneKernel(version: string): Request {
    Request(OS, map[ImageKey(version) := [Blake3("kernel")]],
            Host(map[ImagePath(version) := "kernel"], map[], {}), [KernelItem(version, 1, "kernel")])
  }

  lemma OneKernelSound(version: string)
    requires version != "shared"
    ensures Modern(OneKernel(version)) && Genuine(OneKernel(version))
  {
    var req, item := OneKernel(version), KernelItem(version, 1, "kernel");
    assert req.items == [item];
    OneAsset(req, item);
    ImageIsSourced(req, version, 1, "kernel");
    ItemSound(req, version, 1, "kernel");
    hide Tabulates, AllAssets, IsGenuine, KernelItem, OneKernel, WellNamed, EffectiveSchema;
    ItemsSound(req);
  }

  lemma ItemSound(req: Request, version: string, state: int, image: Content)
    requires req.schema == OS && version != "shared"
    ensures var item := KernelItem(version, state, image);
            && item.entry.image.kind.Image? && item.entry.Assets() == [item.entry.image]
            && WellNamed(item.entry.image) && !EffectiveSchema(req, item).Legacy?
  {
  }

  /** A request is sound if each of its kernels is. */
  lemma ItemsSound(req: Request)
    requires req.schema == OS && Tabulates(req.table, AllAssets(EntriesOf(req)))
    requires forall item | item in req.items ::
               && item.entry.image.kind.Image? && item.entry.Assets() == [item.entry.image]
               && WellNamed(item.entry.image) && !EffectiveSchema(req, item).Legacy?
               && IsGenuine(req, item, item.entry.image)
    ensures Modern(req) && Genuine(req)
  {
    hide Tabulates, AllAssets, IsGenuine, WellNamed, EffectiveSchema;
  }

  /** The image of a kernel is what its source holds. */
  lemma ImageIsSourced(req: Request, version: string, state: int, image: Content)
    requires ImagePath(version) in req.host.files && req.host.files[ImagePath(version)] == image
    ensures IsGenuine(req, KernelItem(version, state, image), KernelItem(version, state, image).entry.image)
  {
    assert [] + ImagePath(version) == ImagePath(version);
  }

  lemma OneAsset(req: Request, item: Item)
    requires req.items == [item] && item.entry.initrd == []
    requires req.table == map[item.entry.image.Key() := [item.entry.image.hash]]
    ensures Tabulates(req.table, AllAssets(EntriesOf(req)))
  {
    var asset := item.entry.image;
    assert EntriesOf(req) == [item.entry];
    assert AllAssets([]) == [];
    assert AllAssets([item.entry]) == [] + item.entry.Assets() == [asset];
    forall key
      ensures Recorded(req.table, key) == HashesOf([asset], key)
    {
      assert [asset][..0] == [];
      assert HashesOf([], key) == [];
    }
  }

  /** A volume on which the directory of the kernel is already there, in capitals. */
  const CAPITALS: Disk := map[
    ["efi"] := Dir("EFI"),
    ["efi", "example"] := Dir("example"),
    ["efi", "example", "6.1-rc1"] := Dir("6.1-RC1")
  ]

  lemma Folds()
    ensures Fold("EFI") == "efi" && Fold("example") == "example"
    ensures Fold("6.1-rc1") == "6.1-rc1" == Fold("6.1-RC1")
  {
  }

  /** Nothing but directories, none below those of kernels. */
  predicate IsBare(d: Disk) {
    forall k | k in d :: d[k].Dir? && 0 < |k| <= 3 && |k[0]| == 3
  }

  lemma CapitalsTree()
    ensures Tree(CAPITALS) && IsBare(CAPITALS)
  {
    Folds();
    hide Fold;
    assert Parent(["efi"]) == [];
    assert Parent(["efi", "example"]) == ["efi"];
    assert Parent(["efi", "example", "6.1-rc1"]) == ["efi", "example"];
    forall k | k in CAPITALS
      ensures Placed(CAPITALS, k)
    {
    }
  }

  lemma OnlyDirs(req: Request, d: Disk)
    requires Modern(req) && IsBare(d)
    ensures Unobstructed(req, d)
  {
    hide Modern, FilesOf;
    forall k | k in FilesOf(req)
      ensures IsClear(d, k)
    {
      FileShape(req, k);
    }
  }

  /**
   A kernel directory that the volume spells in another case loses its kernel: the run succeeds, installs
   the image, and then removes the directory as stale.
   */
  lemma CapitalsLoseTheImage() returns (run: SyncRun)
    ensures var req := OneKernel("6.1-rc1");
            && Tree(CAPITALS) && Modern(req) && Genuine(req) && CompleteRun(req, CAPITALS, run) && Fits(req, run)
            && InstallsExact(req, CAPITALS, run.picks, |req.items|)
            && !IsFile(Final(req, CAPITALS, run), Key(ImageDest("6.1-rc1")))
            && !Converged(req, CAPITALS, Final(req, CAPITALS, run))
  {
    var req := OneKernel("6.1-rc1");
    CapitalsTree();
    OneKernelSound("6.1-rc1");
    hide Modern, Tree, Genuine, CompleteRun, Final, Converged, IsCleaned, InstallsExact, Unobstructed;
    OnlyDirs(req, CAPITALS);
    run := RunExists(req, CAPITALS);
    NotSpelled();
    SyncOpsParts(req, CAPITALS, run);
    if IsFile(Final(req, CAPITALS, run), Key(ImageDest("6.1-rc1"))) {
      PresentIsSpelled(req, CAPITALS, run, Key(ImageDest("6.1-rc1")));
    }
    if Converged(req, CAPITALS, Final(req, CAPITALS, run)) {
      ConvergesExactly(req, CAPITALS, run);
      NotKept(req);
    }
  }

  lemma NotSpelled()
    ensures var req := OneKernel("6.1-rc1"); var k := Key(ImageDest("6.1-rc1"));
            |k| == 4 && IsCleaned(req, k) && !IsSpelled(req, Prepared(req, CAPITALS), k)
  {
    var req, item := OneKernel("6.1-rc1"), KernelItem("6.1-rc1", 1, "kernel");
    var p, w := Prepared(req, CAPITALS), ImageDest("6.1-rc1");
    ItemDest(req, "6.1-rc1", 1, "kernel");
    Folds();
    KeyTake(w, 3);
    KeyTake(w, 2);
    assert w[..2] == ["EFI", "example"] && w[..3] == ["EFI", "example", "6.1-rc1"];
    assert Key(w[..3]) == ["efi", "example", "6.1-rc1"];
    assert "example" in OS.CleanedNamespaces();
    hide Prepared, WantedDest, IsCleaned;
    PreparedKeeps(req, CAPITALS, ["efi", "example", "6.1-rc1"]);
    assert NameOf(p, w[..3]) == "6.1-RC1";
    assert "6.1-RC1"[4] != "6.1-rc1"[4];
    forall other, b | other in req.items && b in other.entry.Assets()
      ensures !SpelledBy(req, p, Key(w), other, b)
    {
      assert other == item && b == item.entry.image;
    }
    CleanedHere(req, Key(w));
  }

  lemma CleanedHere(req: Request, k: Path)
    requires req.schema == OS && |k| == 4 && k[..2] == Key(["EFI", "example"])
    ensures IsCleaned(req, k)
  {
    assert "example" in req.schema.CleanedNamespaces();
  }

  lemma NotKept(req: Request)
    requires req == OneKernel("6.1-rc1")
    ensures !AllKept(req, CAPITALS)
  {
    var item := KernelItem("6.1-rc1", 1, "kernel");
    NotSpelled();
    ItemDest(req, "6.1-rc1", 1, "kernel");
    hide IsSpelled, IsCleaned, Prepared, WantedDest, Holds, NameOf;
    assert item in req.items && item.entry.image in item.entry.Assets();
    assert !IsKept(req, CAPITALS, item, item.entry.image);
  }

  // ---------------------------------------------------------------- versions that differ only in case

  const LOW := "6.1-rc1"
  const HIGH := "6.1-RC1"

  function Twins(low: Content, high: Content): Request {
    Request(OS, map[ImageKey(LOW) := [Blake3(low)], ImageKey(HIGH) := [Blake3(high)]],
            Host(map[ImagePath(LOW) := low, ImagePath(HIGH) := high], map[], {}),
            [KernelItem(LOW, 1, low), KernelItem(HIGH, 2, high)])
  }

  lemma TwinDests(low: Content, high: Content)
    ensures var req, a, b := Twins(low, high), KernelItem(LOW, 1, low), KernelItem(HIGH, 2, high);
            && LOW != HIGH && req.items == [a, b]
            && a.entry.Assets() == [a.entry.image] && b.entry.Assets() == [b.entry.image]
            && WantedDest(req, a, a.entry.image) == ImageDest(LOW)
            && WantedDest(req, b, b.entry.image) == ImageDest(HIGH)
            && Key(ImageDest(LOW)) == Key(ImageDest(HIGH))
            && ContentFor(req, a, a.entry.image) == low && ContentFor(req, b, b.entry.image) == high
  {
    assert LOW[4] != HIGH[4];
    Folds();
    ItemDest(Twins(low, high), LOW, 1, low);
    ItemDest(Twins(low, high), HIGH, 2, high);
    assert ImagePath(LOW)[2] != ImagePath(HIGH)[2];
    assert [] + ImagePath(LOW) == ImagePath(LOW) && [] + ImagePath(HIGH) == ImagePath(HIGH);
  }

  /** Two images that a case-insensitive volume cannot tell apart: whatever a run does, it does not converge. */
  lemma TwinsNeverConverge(low: Content, high: Content, d: Disk, f: Disk)
    requires low != high
    ensures !Converged(Twins(low, high), d, f)
  {
    var req, a, b := Twins(low, high), KernelItem(LOW, 1, low), KernelItem(HIGH, 2, high);
    TwinDests(low, high);
    assert a in req.items && b in req.items;
    hide Converged, WantedDest, ContentFor, AgreeConfs, Prepared;
    if Converged(req, d, f) {
      ConvergedAgrees(req, d, f);
      AgreeOn(req, a, a.entry.image, b, b.entry.image);
    }
  }

  lemma TwinsSound(image: Content)
    ensures Modern(Twins(image, image)) && Genuine(Twins(image, image))
  {
    var req, a, b := Twins(image, image), KernelItem(LOW, 1, image), KernelItem(HIGH, 2, image);
    assert LOW[4] != HIGH[4];
    assert ImagePath(LOW)[2] != ImagePath(HIGH)[2];
    assert req.items == [a, b];
    TwoAssets(req, a.entry, b.entry);
    ImageIsSourced(req, LOW, 1, image);
    ImageIsSourced(req, HIGH, 2, image);
    ItemSound(req, LOW, 1, image);
    ItemSound(req, HIGH, 2, image);
    hide Tabulates, AllAssets, IsGenuine, KernelItem, Twins, WellNamed, EffectiveSchema;
    ItemsSound(req);
  }

  lemma TwoAssets(req: Request, a: HashedEntry, b: HashedEntry)
    requires |req.items| == 2 && req.items[0].entry == a && req.items[1].entry == b
    requires a.initrd == [] && b.initrd == [] && a.image.Key() != b.image.Key()
    requires req.table == map[a.image.Key() := [a.image.hash], b.image.Key() := [b.image.hash]]
    ensures Tabulates(req.table, AllAssets(EntriesOf(req)))
  {
    assert EntriesOf(req) == [a, b];
    TwoImages(a, b);
    hide AllAssets, HashesOf, HashedAsset.Key;
    forall key
      ensures Recorded(req.table, key) == HashesOf([a.image, b.image], key)
    {
      TwoHashes(a.image, b.image, key);
    }
  }

  lemma TwoImages(a: HashedEntry, b: HashedEntry)
    requires a.initrd == [] && b.initrd == []
    ensures AllAssets([a, b]) == [a.image, b.image]
  {
    assert [a, b][..1] == [a] && [a][..0] == [];
    assert AllAssets([a]) == [] + a.Assets() == [a.image];
    assert AllAssets([a, b]) == [a.image] + b.Assets() == [a.image, b.image];
  }

  lemma TwoHashes(a: HashedAsset, b: HashedAsset, key: AssetKey)
    requires a.Key() != b.Key()
    ensures HashesOf([a, b], key) == if key == a.Key() then [a.hash] else if key == b.Key() then [b.hash] else []
  {
    hide HashedAsset.Key;
    assert [a, b][..1] == [a] && [a][..0] == [];
    assert HashesOf([], key) == [];
    assert HashesOf([a], key) == if key == a.Key() then [a.hash] else [];
  }

  lemma TwinConfs(image: Content)
    ensures var req, a, b := Twins(image, image), KernelItem(LOW, 1, image), KernelItem(HIGH, 2, image);
            Key(WantedConf(req, a)) != Key(WantedConf(req, b))
  {
    var req, a, b := Twins(image, image), KernelItem(LOW, 1, image), KernelItem(HIGH, 2, image);
    var m, n := ConfName(req, a), ConfName(req, b);
    assert Decimal(1) == "1" && Decimal(2) == "2";
    assert m == ("example" + "-") + ("6.1-rc1" + ("-" + "1")) + ".conf";
    assert n == ("example" + "-") + ("6.1-RC1" + ("-" + "2")) + ".conf";
    assert Key(WantedConf(req, a))[2][16] == '1' && Key(WantedConf(req, b))[2][16] == '2';
  }

  lemma TwinAsset(image: Content, item: Item, asset: HashedAsset)
    requires item in Twins(image, image).items && asset in item.entry.Assets()
    ensures var req := Twins(image, image); var w := WantedDest(req, item, asset);
            |w| == 4 && Key(w) == Key(ImageDest(LOW)) && Wish(w) == "vmlinuz" && ContentFor(req, item, asset) == image
  {
    TwinDests(image, image);
    hide WantedDest, ContentFor;
  }

  lemma TwinsAgree(image: Content)
    ensures Agrees(Twins(image, image), map[])
  {
    var req := Twins(image, image);
    TwinConfs(image);
    hide WantedDest, ContentFor, WantedConf, Prepared, JobOf, NameOf, Wish;
    forall item, asset, other, c | item in req.items && asset in item.entry.Assets()
                                   && other in req.items && c in other.entry.Assets()
      ensures Wish(WantedDest(req, item, asset)) == Wish(WantedDest(req, other, c))
      ensures ContentFor(req, item, asset) == ContentFor(req, other, c)
    {
      TwinAsset(image, item, asset);
      TwinAsset(image, other, c);
    }
    forall item, other | item in req.items && other in req.items
                         && Key(WantedConf(req, item)) == Key(WantedConf(req, other))
      ensures item == other
    {
    }
  }

  lemma TwinsKept(image: Content)
    ensures AllKept(Twins(image, image), map[])
  {
    var req, a := Twins(image, image), KernelItem(LOW, 1, image);
    TwinDests(image, image);
    FirstSpells(req, a);
    hide WantedDest, Prepared, IsCleaned, NameOf, ContentFor, Wish;
    assert a in req.items && a.entry.image in a.entry.Assets();
    assert SpelledBy(req, Prepared(req, map[]), Key(ImageDest(LOW)), a, a.entry.image);
    hide SpelledBy;
    forall item, asset | item in req.items && asset in item.entry.Assets()
      ensures IsKept(req, map[], item, asset)
    {
      TwinAsset(image, item, asset);
    }
  }

  /** On an empty volume the first entry decides how the directory is spelled. */
  lemma FirstSpells(req: Request, item: Item)
    requires req.items != [] && req.items[0] == item && |WantedDest(req, item, item.entry.image)| == 4
    ensures NodeAt(Prepared(req, map[]), Key(WantedDest(req, item, item.entry.image)[..3]))
         == Some(Dir(WantedDest(req, item, item.entry.image)[2]))
  {
    var w, d: Disk := WantedDest(req, item, item.entry.image), map[];
    var dir := w[..3];
    hide Made, WantedDest, ItemDirs, RequestDirs;
    FirstItemDir(req, item);
    var rest := RequestDirsSplit(req, 0, |req.items|);
    NoDirs(req);
    assert RequestDirs(req, |req.items|) == rest;
    assert rest == [rest[0]] + rest[1..];
    FirstName(d, dir, rest[1..], Key(dir));
  }

  lemma NoDirs(req: Request)
    ensures RequestDirs(req, 0) == []
  {
  }

  lemma FirstItemDir(req: Request, item: Item)
    requires |WantedDest(req, item, item.entry.image)| == 4
    ensures ItemDirs(req, item)[0] == WantedDest(req, item, item.entry.image)[..3]
  {
    assert item.entry.Assets()[0] == item.entry.image;
    hide WantedDest;
    assert AssetDirs(req, item)[0] == ParentOf(WantedDest(req, item, item.entry.image));
  }

  /** Versions that differ only in case do no harm if their images are the same: such a request is not tidy. */
  lemma TwinsConverge(image: Content, run: SyncRun)
    requires CompleteRun(Twins(image, image), map[], run)
    ensures !Tidy(Twins(image, image)) && Converged(Twins(image, image), map[], Final(Twins(image, image), map[], run))
  {
    var req := Twins(image, image);
    TwinsSound(image);
    TwinsAgree(image);
    TwinsKept(image);
    TwinsUntidy(image);
    hide Modern, Genuine, Agrees, AllKept, CompleteRun, Final, Converged, Tidy;
    KeptConverges(req, map[], run);
  }

  /** There are such runs. */
  lemma TwinsRun(image: Content) returns (run: SyncRun)
    ensures CompleteRun(Twins(image, image), map[], run)
  {
    var req := Twins(image, image);
    TwinsSound(image);
    hide Tree, Modern, Genuine, Twins, Unobstructed, CompleteRun, InstallsExact;
    EmptyVolumeClear(req);
    run := RunExists(req, map[]);
  }

  lemma TwinsUntidy(image: Content)
    ensures !Tidy(Twins(image, image))
  {
    var req, a, b := Twins(image, image), KernelItem(LOW, 1, image), KernelItem(HIGH, 2, image);
    TwinDests(image, image);
    assert a in req.items && b in req.items;
    assert a.entry.image in a.entry.Assets() && b.entry.image in b.entry.Assets();
    WantedDestIsWanted(req, a, a.entry.image);
    WantedDestIsWanted(req, b, b.entry.image);
    assert ImageDest(LOW)[2] != ImageDest(HIGH)[2];
    hide IsWanted, WantedDest, Modern;
  }

  lemma TwinsReadable(image: Content)
    ensures Readbackable(Twins(image, image), "example")
  {
    var req, a, b := Twins(image, image), KernelItem(LOW, 1, image), KernelItem(HIGH, 2, image);
    assert LOW[4] != HIGH[4];
    assert ImagePath(LOW)[2] != ImagePath(HIGH)[2];
    ItemDiscovered(req, LOW, 1, image);
    ItemDiscovered(req, HIGH, 2, image);
    assert req.items == [a, b] && EntriesOf(req) == [a.entry, b.entry];
    TwoImages(a.entry, b.entry);
    TwoDirs(req, a, b);
    hide IsDiscovered, KernelItem, Twins, AllUnder;
  }

  lemma TwoDirs(req: Request, a: Item, b: Item)
    requires req.schema == OS && req.items == [a, b]
    requires EffectiveSchema(req, a) == OS && EffectiveSchema(req, b) == OS
    ensures AllUnder(req, "example")
  {
  }

  lemma TwinsUnnamed(image: Content)
    ensures !AllNamed(Twins(image, image), Prepared(Twins(image, image), map[]), "example")
  {
    var req, a, b := Twins(image, image), KernelItem(LOW, 1, image), KernelItem(HIGH, 2, image);
    TwinDests(image, image);
    FirstSpells(req, a);
    KeyTake(ImageDest(LOW), 3);
    KeyTake(ImageDest(HIGH), 3);
    assert ImageDest(HIGH)[..3] == ["EFI", "example", HIGH];
    assert b in req.items && b.entry.inner.kernel.version == HIGH;
    hide Prepared, WantedDest, Twins, KernelItem, ContentFor;
    assert !IsNamedVersion(Prepared(req, map[]), "example", HIGH);
  }

  /** After such a run there is one kernel on the volume: what is read back is not what was synchronised. */
  lemma TwinsAreOne(image: Content, run: SyncRun, kernels: seq<Kernel>)
    requires CompleteRun(Twins(image, image), map[], run)
    requires AreInstalled(Final(Twins(image, image), map[], run),
                          NamespaceDir(Final(Twins(image, image), map[], run), "example"), kernels)
    ensures !AreReadBack(NamespaceDir(Final(Twins(image, image), map[], run), "example"), Twins(image, image).items,
                         kernels)
  {
    hide Tree, Modern, Genuine, Agrees, AllKept, Readbackable, CompleteRun, Final, NamespaceDir, AreInstalled,
         AreReadBack, Undisturbed, AllNamed, Prepared, Twins;
    EmptyTree();
    TwinsSound(image);
    TwinsAgree(image);
    TwinsKept(image);
    TwinsReadable(image);
    TwinsUnnamed(image);
    InstalledAreSynchronised(Twins(image, image), map[], run, "example", kernels);
  }

  // ---------------------------------------------------------------- a directory that passes for an initrd

  /** In the directory of the kernel lies a directory called like an initrd. */
  const STRAY: Disk := map[
    ["efi"] := Dir("EFI"),
    ["efi", "example"] := Dir("example"),
    ["efi", "example", "6.1-rc1"] := Dir("6.1-rc1"),
    ["efi", "example", "6.1-rc1", "x.initrd"] := Dir("x.initrd")
  ]

  lemma StrayTree()
    ensures Tree(STRAY) && RealNames(STRAY)
    ensures forall k | k in STRAY :: STRAY[k].Dir? && 0 < |k| <= 4 && k[0] == "efi"
    ensures forall k | k in STRAY && |k| == 4 :: k[3] == "x.initrd"
  {
    StrayPlaced();
    hide Placed, Fold, RealNames;
    LongNames(STRAY);
  }

  lemma StrayPlaced()
    ensures forall k | k in STRAY :: Placed(STRAY, k)
  {
    Folds();
    assert Fold("x.initrd") == "x.initrd";
    hide Fold;
    assert Parent(["efi"]) == [];
    assert Parent(["efi", "example"]) == ["efi"];
    assert Parent(["efi", "example", "6.1-rc1"]) == ["efi", "example"];
    assert Parent(["efi", "example", "6.1-rc1", "x.initrd"]) == ["efi", "example", "6.1-rc1"];
  }

  lemma LongNames(d: Disk)
    requires forall k | k in d :: |d[k].name| > 2
    ensures RealNames(d)
  {
  }

  lemma StrayReady()
    ensures Keeps(OneKernel(LOW), STRAY) && Readbackable(OneKernel(LOW), "example")
  {
    var req, item := OneKernel(LOW), KernelItem(LOW, 1, "kernel");
    OneKernelSound(LOW);
    StrayTree();
    ItemDest(req, LOW, 1, "kernel");
    StraySpelled(req);
    OneKernelReadable(LOW);
    hide Tree, Modern, Genuine, WantedDest, SpelledAs, Readbackable, Tidy, WellSpelled;
    OneItemTidy(req, item);
    OneSpelled(req, STRAY, item);
    ReadyIsKept(req, STRAY);
  }

  lemma OneSpelled(req: Request, d: Disk, item: Item)
    requires req.items == [item] && item.entry.initrd == [] && SpelledAs(d, WantedDest(req, item, item.entry.image))
    ensures WellSpelled(req, d)
  {
    hide WantedDest, SpelledAs;
  }

  lemma OneItemTidy(req: Request, item: Item)
    requires req.items == [item] && item.entry.initrd == [] && Modern(req) && EffectiveSchema(req, item) == req.schema
    ensures Tidy(req)
  {
    ModernItem(req, item);
    assert item.entry.image in item.entry.Assets();
    hide Tidy;
    OneKernelTidy(req, item);
  }

  lemma StraySpelled(req: Request)
    ensures SpelledAs(STRAY, ImageDest(LOW))
  {
    var w := ImageDest(LOW);
    Folds();
    hide Fold;
    assert w[..3] == ["EFI", "example", LOW] && w[..4] == w;
    assert Key(w[..3]) == ["efi", "example", "6.1-rc1"];
    assert Key(w)[3] == Fold("vmlinuz");
    assert |Fold("vmlinuz")| == 7 && |"x.initrd"| == 8;
    assert Key(w) !in STRAY;
  }

  lemma OneKernelReadable(version: string)
    requires version !in {"/", "..", "initrd.d"}
    ensures Readbackable(OneKernel(version), "example")
  {
    var req, item := OneKernel(version), KernelItem(version, 1, "kernel");
    ItemDiscovered(req, version, 1, "kernel");
    assert req.items == [item] && EntriesOf(req) == [item.entry];
    assert AllAssets([]) == [] && [item.entry][..0] == [];
    assert AllAssets([item.entry]) == [] + item.entry.Assets() == [item.entry.image];
    hide IsDiscovered;
  }

  lemma ItemDiscovered(req: Request, version: string, state: int, image: Content)
    requires version !in {"/", ".."}
    requires ImagePath(version) in req.host.files && req.host.files[ImagePath(version)] == image
    ensures IsDiscovered(req, KernelItem(version, state, image))
  {
    var item := KernelItem(version, state, image);
    assert [] + ImagePath(version) == ImagePath(version);
    assert OwnInitrds([]) == [];
    assert HashInitrds(req.host, item.entry.inner, []) == Some([]);
  }

  /** The directory is taken for an initrd, so that the kernels read back are not those of the entries. */
  lemma StrayIsFound(run: SyncRun, kernels: seq<Kernel>)
    requires CompleteRun(OneKernel(LOW), STRAY, run)
    requires AreInstalled(Final(OneKernel(LOW), STRAY, run), NamespaceDir(Final(OneKernel(LOW), STRAY, run), "example"),
                          kernels)
    ensures !AreReadBack(NamespaceDir(Final(OneKernel(LOW), STRAY, run), "example"), OneKernel(LOW).items, kernels)
  {
    var req := OneKernel(LOW);
    StrayTree();
    StrayReady();
    StrayDisturbs();
    hide Keeps, Readbackable, RealNames, CompleteRun, Final, NamespaceDir, AreInstalled, AreReadBack, Undisturbed,
         AllNamed, Prepared;
    InstalledAreSynchronised(req, STRAY, run, "example", kernels);
  }

  lemma StrayDisturbs()
    ensures !Undisturbed(OneKernel(LOW), STRAY, "example")
  {
    var req, k, q := OneKernel(LOW), ["efi", "example", "6.1-rc1", "x.initrd"], Place(LOW, "x.initrd");
    Folds();
    assert k[..2] == ["efi", "example"] == Key(["EFI", "example"]);
    assert k[..3] == ["efi", "example", "6.1-rc1"];
    assert q in Strays(STRAY, "example");
    assert KernelItem(LOW, 1, "kernel") in req.items;
    assert IsVersion(req, LOW);
    assert |"x.initrd"| == 8 && |LOW| == 7;
    assert "x.initrd"[1..] == ".initrd";
    assert KindOf("x.initrd").Some?;
  }

  /** There are such runs. */
  lemma StrayRun() returns (run: SyncRun)
    ensures CompleteRun(OneKernel(LOW), STRAY, run)
  {
    var req := OneKernel(LOW);
    StrayTree();
    OneKernelSound(LOW);
    StrayUnobstructed();
    hide Tree, Modern, Genuine, Unobstructed, CompleteRun, InstallsExact;
    run := RunExists(req, STRAY);
  }

  lemma StrayUnobstructed()
    ensures Unobstructed(OneKernel(LOW), STRAY)
  {
    var req := OneKernel(LOW);
    OneKernelSound(LOW);
    StrayTree();
    hide Tree, Modern, Genuine, FilesOf;
    forall k | k in FilesOf(req)
      ensures IsClear(STRAY, k)
    {
      FileShape(req, k);
      if |k| == 4 {
        ImageFiles(LOW, k);
      }
      InNobodysWay(STRAY, k);
    }
  }

  lemma InNobodysWay(d: Disk, k: Path)
    requires k != [] && k !in d && forall j | j in d :: d[j].Dir?
    ensures IsClear(d, k)
  {
  }

  /** The files below the namespace are the image and its staging file. */
  lemma ImageFiles(version: string, k: Path)
    requires k in FilesOf(OneKernel(version)) && |k| == 4
    ensures |k[3]| == 7 || |k[3]| == 17
  {
    var req, w, item := OneKernel(version), ImageDest(version), KernelItem(version, 1, "kernel");
    ItemDest(req, version, 1, "kernel");
    StagingLength(w);
    hide WantedDest, Staging, WantedConf, ConfKeys, AssetKeys, StagingKeys;
    if k in ConfKeys(req) {
      ConfKeyLength(req, k);
    } else {
      OneAssetKey(req, item, k);
    }
  }

  lemma OneAssetKey(req: Request, item: Item, k: Path)
    requires req.items == [item] && item.entry.initrd == [] && (k in AssetKeys(req) || k in StagingKeys(req))
    ensures k == Key(WantedDest(req, item, item.entry.image)) || k == StagingKey(req, item, item.entry.image)
  {
    hide WantedDest, StagingKey;
  }

  lemma ConfKeyLength(req: Request, k: Path)
    requires k in ConfKeys(req)
    ensures |k| == 3
  {
    hide ConfName;
  }

  lemma StagingLength(w: Path)
    requires |w| == 4 && w[3] == "vmlinuz"
    ensures |Staging(w)| == 4
    ensures |Key(Staging(w))| == 4 && |Key(Staging(w))[3]| == |Staging(w)[3]| == 17
  {
    NoDot("vmlinuz");
    assert Staging(w)[3] == "vmlinuz" + "..TmpWrite";
  }

  lemma NoDot(name: string)
    requires '.' !in name
    ensures Stem(name) == name
  {
  }

  // ---------------------------------------------------------------- an upgrade

  const OLD := "6.0"
  const OLD_CONF := "example-6.0-1.conf"

  /** The configuration of the old kernel, as its own synchronisation wrote it. */
  function OldText(): Content {
    JobOf(OneKernel(OLD), map[], KernelItem(OLD, 1, "kernel")).text
  }

  /** A volume with one kernel, that an upgrade replaces by another. */
  function Upgradable(): Disk {
    map[
      ["efi"] := Dir("EFI"),
      ["efi", "example"] := Dir("example"),
      ["efi", "example", OLD] := Dir(OLD),
      ["efi", "example", OLD, "vmlinuz"] := File("vmlinuz", "kernel"),
      ["loader"] := Dir("loader"),
      ["loader", "entries"] := Dir("entries"),
      ["loader", "entries", OLD_CONF] := File(OLD_CONF, OldText())
    ]
  }

  lemma FoldLower(s: string)
    requires forall i | 0 <= i < |s| :: !('A' <= s[i] <= 'Z')
    ensures Fold(s) == s
  {
  }

  lemma LowerNames()
    ensures Fold("EFI") == "efi" && Fold("example") == "example" && Fold(OLD) == OLD && Fold("vmlinuz") == "vmlinuz"
    ensures Fold("loader") == "loader" && Fold("entries") == "entries" && Fold(OLD_CONF) == OLD_CONF
    ensures Fold(LOW) == LOW
  {
    FoldLower("example");
    FoldLower(OLD);
    FoldLower("vmlinuz");
    FoldLower("loader");
    FoldLower("entries");
    FoldLower(OLD_CONF);
    FoldLower(LOW);
  }

  lemma UpgradableTree()
    ensures Tree(Upgradable())
  {
    LowerNames();
    hide Fold, OldText;
    var d := Upgradable();
    assert Parent(["efi"]) == [] && Parent(["loader"]) == [];
    assert Parent(["efi", "example"]) == ["efi"];
    assert Parent(["efi", "example", OLD]) == ["efi", "example"];
    assert Parent(["efi", "example", OLD, "vmlinuz"]) == ["efi", "example", OLD];
    assert Parent(["loader", "entries"]) == ["loader"];
    assert Parent(["loader", "entries", OLD_CONF]) == ["loader", "entries"];
    forall k | k in d
      ensures Placed(d, k)
    {
    }
  }

  lemma OneKernelItem(version: string)
    ensures var req, item := OneKernel(version), KernelItem(version, 1, "kernel");
            && req.schema == OS && req.items == [item] && item.entry.initrd == [] && item.options == "quiet"
            && EffectiveSchema(req, item) == OS && item.entry.inner.kernel.version == version
            && item.entry.image.kernelVersion == version && item.entry.image.fileName == "vmlinuz"
  {
  }

  lemma OneKernelPrintable(version: string)
    requires PlainName(version)
    ensures Printable(OneKernel(version))
  {
    var req, item := OneKernel(version), KernelItem(version, 1, "kernel");
    OneKernelItem(version);
    hide OneKernel, KernelItem, EffectiveSchema;
    assert Title(OS, version) == "Example" + " (" + version + ")";
    hide Title;
    assert item.entry.Assets() == [item.entry.image];
  }

  /** The configuration of an entry without initrds names its image. */
  lemma NamesImage(req: Request, d: Disk, item: Item)
    requires Tree(d) && Modern(req) && Printable(req) && item in req.items && item.entry.initrd == []
    ensures References(JobOf(req, d, item).text) == {Key(WantedDest(req, item, item.entry.image))}
  {
    hide Tree, Modern, Printable, JobOf, WantedDest, References;
    JobReferences(req, d, item);
    assert item.entry.image in item.entry.Assets();
  }

  /** What the old configuration names, read back. */
  lemma OldNames()
    ensures References(OldText()) == {["efi", "example", OLD, "vmlinuz"]}
  {
    hide Modern, Genuine, Printable, WantedDest, References, Fold, OneKernel, KernelItem, JobOf, Tree;
    var req, item, d: Disk := OneKernel(OLD), KernelItem(OLD, 1, "kernel"), map[];
    OneKernelPrintable(OLD);
    OneKernelSound(OLD);
    OneKernelItem(OLD);
    OneImage(req, OLD, 1, "kernel");
    EmptyTree();
    NamesImage(req, d, item);
    OldKey();
  }

  lemma EmptyTree()
    ensures Tree(map[])
  {
  }

  lemma OneImage(req: Request, version: string, state: int, image: Content)
    requires req == OneKernel(version) && state == 1 && image == "kernel"
    ensures WantedDest(req, KernelItem(version, state, image), KernelItem(version, state, image).entry.image)
         == ImageDest(version)
  {
    ItemDest(req, version, state, image);
    hide WantedDest;
  }

  lemma OldKey()
    ensures Key(ImageDest(OLD)) == ["efi", "example", OLD, "vmlinuz"]
  {
    LowerNames();
    hide Fold;
  }

  lemma UpgradeKeeps()
    ensures Keeps(OneKernel(LOW), Upgradable())
  {
    var req, item, d := OneKernel(LOW), KernelItem(LOW, 1, "kernel"), Upgradable();
    OneKernelSound(LOW);
    OneKernelItem(LOW);
    UpgradableTree();
    OneImage(req, LOW, 1, "kernel");
    NewSpelled();
    hide OneKernel, KernelItem, Upgradable, Tree, Modern, Genuine, WantedDest, SpelledAs, Tidy, WellSpelled, Agrees,
         AllKept, EffectiveSchema;
    OneItemTidy(req, item);
    OneSpelled(req, d, item);
    ReadyIsKept(req, d);
  }

  lemma NewSpelled()
    ensures SpelledAs(Upgradable(), ImageDest(LOW))
  {
    var w := ImageDest(LOW);
    LowerNames();
    hide Fold, OldText;
    assert w[..3] == ["EFI", "example", LOW] && w[..4] == w;
    assert |LOW| == 7 && |OLD| == 3;
    assert Key(w[..3])[2] == LOW && Key(w)[2] == LOW;
  }

  /** The key of the old configuration, and of the old image. */
  const OLD_KEY: Path := ["loader", "entries", OLD_CONF]
  const OLD_IMAGE: Path := ["efi", "example", OLD, "vmlinuz"]

  lemma UpgradeLinked()
    ensures Linked(OneKernel(LOW), Upgradable(), [])
    ensures IsConfNode(OneKernel(LOW), Upgradable(), OLD_KEY)
    ensures OLD_IMAGE in References(Upgradable()[OLD_KEY].content)
  {
    var req, d := OneKernel(LOW), Upgradable();
    OldNames();
    LowerNames();
    hide Fold, OldText, References;
    KeyPair("loader", "entries");
    assert OLD_KEY[..2] == ["loader", "entries"];
    assert "example" <= OLD_CONF && "example" in OS.CleanedPrefixes();
    assert HasCleanedPrefix(req.schema, d[OLD_KEY].name);
    forall k | IsConfNode(req, d, k)
      ensures k == OLD_KEY
    {
      assert |k| == 3;
    }
  }

  lemma KeyPair(a: string, b: string)
    ensures Key([a, b]) == [Fold(a), Fold(b)]
  {
  }

  /** The configuration of the new kernel has another name. */
  lemma NewConfShape(k: Path)
    requires k in ConfKeys(OneKernel(LOW))
    ensures |k| == 3 && |k[2]| == 22
  {
    var req, item := OneKernel(LOW), KernelItem(LOW, 1, "kernel");
    assert Decimal(1) == "1";
    assert ConfName(req, item) == ("example" + "-") + (LOW + ("-" + "1")) + ".conf";
    assert |ConfName(req, item)| == 22;
  }

  lemma NewAssetShape(k: Path)
    requires k in AssetKeys(OneKernel(LOW)) || k in StagingKeys(OneKernel(LOW))
    ensures |k| == 4 && k[2] == LOW && k[0] == "efi"
  {
    var req, item := OneKernel(LOW), KernelItem(LOW, 1, "kernel");
    OneKernelItem(LOW);
    OneImage(req, LOW, 1, "kernel");
    LowerNames();
    hide Fold, WantedDest, Staging, OneKernel, KernelItem, AssetKeys, StagingKeys;
    OneAssetKey(req, item, k);
    StagingDiffers(ImageDest(LOW));
    assert Key(ImageDest(LOW))[2] == LOW;
    SameFront(k, Key(ImageDest(LOW)));
  }

  lemma SameFront(k: Path, q: Path)
    requires |k| == |q| == 4 && (k == q || Parent(k) == Parent(q))
    ensures k[2] == q[2] && k[0] == q[0]
  {
    if k != q {
      assert k[2] == Parent(k)[2] && k[0] == Parent(k)[0];
    }
  }

  lemma OldIsRemoved()
    ensures IsRemoved(OneKernel(LOW), Upgradable(), OLD_IMAGE)
    ensures OLD_KEY !in ConfKeys(OneKernel(LOW))
  {
    var req, d := OneKernel(LOW), Upgradable();
    LowerNames();
    hide Fold, OldText, ConfKeys, AssetKeys;
    KeyPair("EFI", "example");
    assert OLD_IMAGE[..2] == Key(["EFI", "example"]);
    assert "example" in OS.CleanedNamespaces();
    assert IsCleaned(req, OLD_IMAGE);
    assert |OLD_CONF| == 18 && |OLD| == 3 && |LOW| == 7;
    if OLD_KEY in ConfKeys(req) {
      NewConfShape(OLD_KEY);
    }
    if OLD_IMAGE in ConfKeys(req) {
      NewConfShape(OLD_IMAGE);
    } else if OLD_IMAGE in AssetKeys(req) {
      NewAssetShape(OLD_IMAGE);
    }
  }

  lemma UpgradeUnobstructed()
    ensures Unobstructed(OneKernel(LOW), Upgradable())
  {
    var req, d := OneKernel(LOW), Upgradable();
    hide OldText, ConfKeys, AssetKeys, StagingKeys, OneKernel;
    assert |OLD_CONF| == 18 && |OLD| == 3 && |LOW| == 7;
    forall k | k in FilesOf(req)
      ensures IsClear(d, k)
    {
      if k in ConfKeys(req) {
        NewConfShape(k);
      } else {
        NewAssetShape(k);
      }
    }
  }

  /**
   An upgrade is exposed: a synchronisation that installs a new kernel and drops the old one, and a power cut at its
   end, after which the old configuration is there and the image it names is not.
   */
  lemma UpgradeBreaks() returns (run: SyncRun, c: Disk)
    ensures CompleteRun(OneKernel(LOW), Upgradable(), run)
    ensures InstallsExact(OneKernel(LOW), Upgradable(), run.picks, |OneKernel(LOW).items|)
    ensures AtomicCrash(Upgradable(), SyncOps(OneKernel(LOW), Upgradable(), run), c) && !Intact(OneKernel(LOW), c)
  {
    hide OneKernel, Upgradable, Keeps, Unobstructed, CompleteRun, InstallsExact, Linked, IsConfNode, IsRemoved,
         References, Printable, SyncOps, AtomicCrash, Intact, ConfKeys;
    UpgradeKeeps();
    UpgradeLinked();
    OldIsRemoved();
    UpgradeUnobstructed();
    OneKernelPrintable(LOW);
    run, c := DroppedRun(OneKernel(LOW), Upgradable(), OLD_KEY, OLD_IMAGE);
  }
}
