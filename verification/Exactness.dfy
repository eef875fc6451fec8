/**
 Exactly when a synchronisation converges.  The volume looks names up without regard to case, while cleaning
 up compares them as they are spelled; so what has been installed may be taken for stale.
 */
module Exactness {
  import opened Text
  import opened Fat
  import opened Volumes
  import opened Compare
  import opened Entries
  import opened Assets
  import opened Conf
  import opened SyncPlan
  import opened Loaders
  import opened Wanted
  import opened Convergence
  import opened Outcome
  import opened Effects
  import opened Scaffold
  import opened Turns
  import opened Cmdlines

  // ---------------------------------------------------------------- the condition

  /** Some entry installs under the key, in a directory spelled as the prepared volume spells it. */
  ghost predicate IsSpelled(req: Request, p: Disk, k: Path) {
    exists item, asset | item in req.items && asset in item.entry.Assets() :: SpelledBy(req, p, k, item, asset)
  }

  predicate SpelledBy(req: Request, p: Disk, k: Path, item: Item, asset: HashedAsset) {
    var w := WantedDest(req, item, asset);
    Key(w) == k && |w| == 4 && NameOf(p, w[..3]) == w[2]
  }

  /**
   An asset is kept when its file is spelled as wanted, absent, or about to be replaced, and when, in a
   namespace that is cleaned, some entry that installs it spells its directory as the volume will.
   */
  ghost predicate IsKept(req: Request, d: Disk, item: Item, asset: HashedAsset) {
    var w := WantedDest(req, item, asset);
    && |w| == 4
    && (NameOf(d, w) == Wish(w) || !Holds(d, Key(w), ContentFor(req, item, asset)))
    && (IsCleaned(req, Key(w)) ==> IsSpelled(req, Prepared(req, d), Key(w)))
  }

  ghost predicate AllKept(req: Request, d: Disk) {
    forall item, asset | item in req.items && asset in item.entry.Assets() :: IsKept(req, d, item, asset)
  }

  /** Whatever leads to one node asks for the same. */
  ghost predicate Agrees(req: Request, d: Disk) {
    AgreeAssets(req) && AgreeConfs(req, Prepared(req, d))
  }

  /** The managed files are exactly what the request asks for. */
  ghost predicate Converged(req: Request, d: Disk, f: Disk) {
    forall k, node :: NodeAt(ManagedState(req, f), k) == Some(node) <==> IsTarget(req, Prepared(req, d), k, node)
  }

  // ---------------------------------------------------------------- what results account for

  lemma NamespaceAtEnd(req: Request, d: Disk, run: SyncRun, i: nat)
    requires Tree(d) && Modern(req) && CompleteRun(req, d, run) && Fits(req, run) && i < |req.items|
    ensures var namespace, e := EffectiveSchema(req, req.items[i]).OsNamespace(), DiskAfter(req, d, run.picks, i);
            && NamespaceDir(e, namespace) == NamespaceDir(Prepared(req, d), namespace)
            && EntriesDir(e) == EntriesDir(Prepared(req, d))
            && Tree(e) && Tree(Prepared(req, d))
  {
    hide Tree, Modern, CompleteRun, Installs, Prepared, Made, RequestDirs, SameScaffold, NamespaceDir, EntriesDir,
         EffectiveSchema;
    TurnDisk(req, d, run, i);
    PreparedIsTree(req, d, run);
    DirsAtEnd(req, d, DiskAfter(req, d, run.picks, i), i);
  }

  /** The results account for every asset under the spelling that its entry wants. */
  lemma AccountsFor(req: Request, d: Disk, run: SyncRun, item: Item, asset: HashedAsset) returns (r: InstallResult)
    requires Tree(d) && Modern(req) && Genuine(req) && CompleteRun(req, d, run) && Fits(req, run)
    requires item in req.items && asset in item.entry.Assets()
    ensures r in Results(req, d, run) && |WantedDest(req, item, asset)| == 4
    ensures var base, w := NamespaceDir(Prepared(req, d), EffectiveSchema(req, item).OsNamespace()),
                           WantedDest(req, item, asset);
            && base + [w[2], w[3]] in r.kernelFiles
            && (w[2] == "shared" || r.kernelDir == base + [w[2]])
  {
    hide Tree, Modern, CompleteRun, Installs, Prepared, JobOf, WantedDest, NamespaceDir, EffectiveSchema, ResultOf;
    var i :| 0 <= i < |req.items| && req.items[i] == item;
    NamespaceAtEnd(req, d, run, i);
    r := Results(req, d, run)[i];
    assert r == ResultOf(JobAt(req, d, run.picks, i));
    ModernItem(req, item);
    JobAccounts(req, DiskAfter(req, d, run.picks, i), item, asset);
  }

  lemma JobAccounts(req: Request, e: Disk, item: Item, asset: HashedAsset)
    requires Tree(e) && !EffectiveSchema(req, item).Legacy? && Genuine(req)
    requires item in req.items && asset in item.entry.Assets()
    ensures |WantedDest(req, item, asset)| == 4
    ensures var base, w, r := NamespaceDir(e, EffectiveSchema(req, item).OsNamespace()),
                              WantedDest(req, item, asset), ResultOf(JobOf(req, e, item));
            && base + [w[2], w[3]] in r.kernelFiles
            && (w[2] == "shared" || r.kernelDir == base + [w[2]])
  {
    KernelDirSpelled(req, e, item);
    assert IsGenuine(req, item, asset);
    DestShape(req, item, asset);
    DestDirs(req, e, item, asset);
    hide GenerateEntry, WantedDest, NamespaceDir, Genuine, AssetPair, Tree;
    var assets := item.entry.Assets();
    var j :| 0 <= j < |assets| && assets[j] == asset;
    assert Dests(JobOf(req, e, item).changeset)[j] == AssetPair(req, e, item, asset).dest;
  }

  lemma KernelDirSpelled(req: Request, e: Disk, item: Item)
    requires !EffectiveSchema(req, item).Legacy? && Genuine(req) && item in req.items
    ensures ResultOf(JobOf(req, e, item)).kernelDir
         == NamespaceDir(e, EffectiveSchema(req, item).OsNamespace()) + [item.entry.inner.kernel.version]
  {
    var image := item.entry.image;
    assert item.entry.Assets()[0] == image && image in item.entry.Assets();
    assert IsGenuine(req, item, image) && image.kind.Image?;
    DestShape(req, item, image);
    DestDirs(req, e, item, image);
    hide GenerateEntry, WantedDest, NamespaceDir, Genuine, AssetPair;
    assert JobOf(req, e, item).changeset[0] == AssetPair(req, e, item, image);
    var base, w := NamespaceDir(e, EffectiveSchema(req, item).OsNamespace()), WantedDest(req, item, image);
    assert Parent(base + [w[2], w[3]]) == base + [w[2]];
  }

  // ---------------------------------------------------------------- what converges is kept

  /** Both targets of one node are the node that is there. */
  lemma ConvergedAgrees(req: Request, d: Disk, f: Disk)
    requires Converged(req, d, f)
    ensures Agrees(req, d)
  {
    hide WantedDest, WantedConf, IsManaged, Wish, Prepared, JobOf, NameOf;
    var p := Prepared(req, d);
    forall item, asset, other, b | item in req.items && asset in item.entry.Assets()
                                   && other in req.items && b in other.entry.Assets()
                                   && Key(WantedDest(req, item, asset)) == Key(WantedDest(req, other, b))
      ensures Wish(WantedDest(req, item, asset)) == Wish(WantedDest(req, other, b))
      ensures ContentFor(req, item, asset) == ContentFor(req, other, b)
    {
      ConvergedHas(req, d, f, item, asset);
      ConvergedHas(req, d, f, other, b);
    }
    forall item, other | item in req.items && other in req.items
                         && Key(WantedConf(req, item)) == Key(WantedConf(req, other))
      ensures NameOf(p, WantedConf(req, item)) == NameOf(p, WantedConf(req, other))
      ensures JobOf(req, p, item).text == JobOf(req, p, other).text
    {
      ConvergedHasConf(req, d, f, item);
      ConvergedHasConf(req, d, f, other);
    }
  }

  lemma ConvergedHas(req: Request, d: Disk, f: Disk, item: Item, asset: HashedAsset)
    requires Converged(req, d, f) && item in req.items && asset in item.entry.Assets()
    ensures NodeAt(f, Key(WantedDest(req, item, asset)))
         == Some(File(Wish(WantedDest(req, item, asset)), ContentFor(req, item, asset)))
  {
    hide WantedDest, IsConfTarget, IsManaged, Wish, Prepared;
    var k, w := Key(WantedDest(req, item, asset)), WantedDest(req, item, asset);
    var node := File(Wish(w), ContentFor(req, item, asset));
    assert IsAssetTarget(req, k, node);
    assert IsTarget(req, Prepared(req, d), k, node);
    assert NodeAt(ManagedState(req, f), k) == Some(node);
  }

  lemma ConvergedHasConf(req: Request, d: Disk, f: Disk, item: Item)
    requires Converged(req, d, f) && item in req.items
    ensures var p := Prepared(req, d);
            NodeAt(f, Key(WantedConf(req, item)))
              == Some(File(NameOf(p, WantedConf(req, item)), JobOf(req, p, item).text))
  {
    hide WantedConf, IsAssetTarget, IsManaged, NameOf, Prepared, JobOf;
    var k, p := Key(WantedConf(req, item)), Prepared(req, d);
    var node := File(NameOf(p, WantedConf(req, item)), JobOf(req, p, item).text);
    assert IsConfTarget(req, p, k, node);
    assert IsTarget(req, p, k, node);
    assert NodeAt(ManagedState(req, f), k) == Some(node);
  }

  /**
   A file that is what was asked for, after a run without read errors, was kept; if another entry asks for something
   else there, it may have been replaced twice instead.
   */
  lemma PresentIsKept(req: Request, d: Disk, run: SyncRun, item: Item, asset: HashedAsset)
    requires Tree(d) && Modern(req) && Genuine(req) && AgreesAt(req, item, asset)
    requires CompleteRun(req, d, run) && Fits(req, run) && InstallsExact(req, d, run.picks, |req.items|)
    requires item in req.items && asset in item.entry.Assets()
    requires NodeAt(Final(req, d, run), Key(WantedDest(req, item, asset)))
          == Some(File(Wish(WantedDest(req, item, asset)), ContentFor(req, item, asset)))
    ensures IsKept(req, d, item, asset)
  {
    var w, k := WantedDest(req, item, asset), Key(WantedDest(req, item, asset));
    ModernItem(req, item);
    DestShape(req, item, asset);
    hide Tree, Modern, Genuine, AgreesAt, WantedDest, CompleteRun, InstallsExact, Final, Wish, ContentFor,
         Results, Cleaned, CleanupOps, RemovesStale, Installs, Prepared, IsSpelled;
    TwoPhases(req, d, run);
    var e, f := InstallPhase(req, d, run).disk, Final(req, d, run);
    RemovalsShrink(e, CleanupOps(run), k);
    if Holds(d, k, ContentFor(req, item, asset)) {
      IdenticalStays(req, d, run.picks, |req.items|, item, asset);
    }
    if IsCleaned(req, k) {
      PresentIsSpelled(req, d, run, k);
    }
  }

  lemma PresentIsSpelled(req: Request, d: Disk, run: SyncRun, k: Path)
    requires Tree(d) && Modern(req) && CompleteRun(req, d, run) && Fits(req, run)
    requires |k| == 4 && IsFile(Final(req, d, run), k) && IsCleaned(req, k)
    ensures IsSpelled(req, Prepared(req, d), k)
  {
    hide Tree, Modern, WantedDest, CompleteRun, Final, Results, Cleaned, CleanupOps, RemovesStale, Installs,
         Prepared, Run;
    var namespace :| namespace in req.schema.CleanedNamespaces() && k[..2] == Key(["EFI", namespace]);
    TwoPhases(req, d, run);
    var e, f := InstallPhase(req, d, run).disk, Final(req, d, run);
    RemovalsShrink(e, CleanupOps(run), k);
    TreeRun(e, CleanupOps(run));
    SurvivorAccounted(req, e, f, Results(req, d, run), namespace, k);
    var q := NamespaceDir(e, namespace) + [e[k[..3]].name, e[k].name];
    var r :| r in Results(req, d, run) && q in r.kernelFiles;
    SpelledKey(e, namespace, k);
    var item, asset := AccountedFor(req, d, run, r, q);
    NamespaceKey(e, namespace);
    hide NamespaceDir;
    assert q[2] == e[k[..3]].name;
    var w := WantedDest(req, item, asset);
    KeyTake(w, 3);
    PreparedIsTree(req, d, run);
    assert |k[0]| == 3;
    NameOfScaffold(e, Prepared(req, d), w[..3]);
    assert SpelledBy(req, Prepared(req, d), k, item, asset);
  }

  lemma NameOfScaffold(e: Disk, p: Disk, dir: Path)
    requires SameScaffold(e, p) && |dir| == 3 && |Key(dir)[0]| == 3 && Key(dir) in e
    ensures NameOf(p, dir) == e[Key(dir)].name
  {
    assert IsScaffold(Key(dir));
    assert NodeAt(e, Key(dir)) == NodeAt(p, Key(dir));
  }

  // ---------------------------------------------------------------- what is kept converges

  /** At the end of installing an asset that is kept is what was asked for. */
  lemma KeptInstalled(req: Request, d: Disk, run: SyncRun, item: Item, asset: HashedAsset)
    requires Tree(d) && Modern(req) && Genuine(req) && AgreeAssets(req) && CompleteRun(req, d, run) && Fits(req, run)
    requires item in req.items && asset in item.entry.Assets() && IsKept(req, d, item, asset)
    ensures NodeAt(InstallPhase(req, d, run).disk, Key(WantedDest(req, item, asset)))
         == Some(File(Wish(WantedDest(req, item, asset)), ContentFor(req, item, asset)))
  {
    hide Tree, Modern, Genuine, AgreeAssets, WantedDest, CompleteRun, Wish, ContentFor, Installs, Prepared, IsSpelled;
    AssetInstalled(req, d, run, item, asset);
    LeafAtEnd(req, d, run, item, asset);
  }

  /** A listed directory, as the prepared volume spells it. */
  lemma ListedDir(req: Request, e: Disk, p: Disk, schema: Schema, dir: Path, k: Path, item: Item, asset: HashedAsset)
    requires Tree(e) && Tree(p) && SameScaffold(e, p) && dir in KernelDirs(e, schema)
    requires |k| == 4 && |k[0]| == 3 && Key(dir) == k[..3] && SpelledBy(req, p, k, item, asset)
    requires !EffectiveSchema(req, item).Legacy?
    ensures dir == NamespaceDir(p, EffectiveSchema(req, item).OsNamespace()) + [WantedDest(req, item, asset)[2]]
  {
    var w, ns := WantedDest(req, item, asset), ["EFI", EffectiveSchema(req, item).OsNamespace()];
    var namespace := KernelDirListed(e, schema, dir);
    DestShape(req, item, asset);
    hide WantedDest, Tree, KernelDirs, OnDisk, EffectiveSchema, SameScaffold;
    KeyTake(w, 3);
    KeyTake(w, 2);
    KeyTake(dir, 2);
    assert k[..2] == k[..3][..2] == Key(["EFI", namespace]);
    assert w[..2] == ns && Key(ns) == k[..2];
    OnDiskSameKey(e, ["EFI", namespace], ns);
    SpelledOnScaffold(e, p, ns);
    NamespaceOnDisk(p, ns[1]);
    NameOfScaffold(e, p, w[..3]);
    assert dir == dir[..2] + [dir[2]];
  }

  lemma SpelledOnScaffold(e: Disk, p: Disk, ns: Path)
    requires Tree(e) && SameScaffold(e, p) && |ns| == 2 && |ns[0]| == 3 && Key(ns) in e
    ensures OnDisk(e, ns) == OnDisk(p, ns)
  {
    var a, b := ns[0], ns[1];
    assert ns == [a, b];
    OnDiskPair(e, a, b);
    OnDiskPair(p, a, b);
    KeyParent(ns);
    assert Parent(ns) == [a];
    assert Placed(e, Key(ns));
    assert IsScaffold(Key(ns)) && IsScaffold(Key([a]));
    assert NodeAt(e, Key(ns)) == NodeAt(p, Key(ns));
    assert NodeAt(e, Key([a])) == NodeAt(p, Key([a]));
    hide OnDisk;
  }

  /** Cleaning up spares an asset that is kept. */
  lemma CleanupSparesKept(req: Request, d: Disk, run: SyncRun, item: Item, asset: HashedAsset, op: Op)
    requires Tree(d) && Modern(req) && Genuine(req) && AgreeAssets(req) && CompleteRun(req, d, run) && Fits(req, run)
    requires item in req.items && asset in item.entry.Assets() && IsKept(req, d, item, asset)
    requires op in CleanupOps(run)
    ensures !Touches(op, Key(WantedDest(req, item, asset)))
  {
    var w, k := WantedDest(req, item, asset), Key(WantedDest(req, item, asset));
    ModernItem(req, item);
    DestShape(req, item, asset);
    hide Tree, Modern, Genuine, AgreeAssets, WantedDest, CompleteRun, Wish, ContentFor, Installs, Prepared,
         IsSpelled, Final, Results, Cleaned, LoaderFiles, KernelDirs, FilesBelow, IsStaleTree, IsStaleFile,
         IsCleaned, NameOf, SameScaffold;
    TwoPhases(req, d, run);
    PreparedIsTree(req, d, run);
    KeptInstalled(req, d, run, item, asset);
    var e, p := InstallPhase(req, d, run).disk, Prepared(req, d);
    assert |k[0]| == 3;
    if op in run.confs {
      LoaderFileKey(e, req.schema, op.path);
    } else if op in run.trees {
      if Key(op.path) <= k {
        BelowEfi(e, req.schema, op.path);
        KeptTree(req, d, run, item, asset, op.path);
      }
    } else {
      var dir :| dir in KernelDirs(e, req.schema) && op.path in FilesBelow(e, dir)
        && IsStaleFile(Results(req, d, run), op.path);
      if Key(op.path) == k {
        KeptFile(req, d, run, item, asset, dir, op.path);
      }
    }
  }

  lemma LoaderFileKey(e: Disk, schema: Schema, p: Path)
    requires Tree(e) && p in LoaderFiles(e, schema)
    ensures |p| == 3 && Key(p)[..2] == Key(["loader", "entries"])
  {
    hide HasCleanedPrefix, EntriesDir, Children;
    EntriesKey(e);
    var n :| n in Children(e, Key(EntriesDir(e))) && p == EntriesDir(e) + [n];
    KeyAppend(EntriesDir(e), [n]);
  }

  /** The directory of an asset that is kept is shared, or that of an entry. */
  lemma KeptTree(req: Request, d: Disk, run: SyncRun, item: Item, asset: HashedAsset, dir: Path)
    requires Tree(d) && Modern(req) && Genuine(req) && CompleteRun(req, d, run) && Fits(req, run)
    requires item in req.items && asset in item.entry.Assets() && IsKept(req, d, item, asset)
    requires |dir| == 3 && Key(dir) <= Key(WantedDest(req, item, asset))
    requires dir in KernelDirs(InstallPhase(req, d, run).disk, req.schema)
    ensures !IsStaleTree(req.schema, Results(req, d, run), dir)
  {
    hide Tree, Genuine, WantedDest, CompleteRun, Wish, ContentFor, Installs, Prepared, Final, Results, KernelDirs,
         NameOf, IsStaleTree, SameScaffold, NamespaceDir;
    var other, b := KeptDir(req, d, run, item, asset, dir);
    var r := AccountsFor(req, d, run, other, b);
    assert !req.schema.Legacy?;
    if WantedDest(req, other, b)[2] == "shared" {
      SharedDirKept(req.schema, Results(req, d, run), dir);
    } else {
      ResultDirKept(req.schema, Results(req, d, run), r);
    }
  }

  /** What lies below a listed directory is in a namespace that is cleaned. */
  lemma ListedIsCleaned(req: Request, e: Disk, dir: Path, k: Path)
    requires Tree(e) && dir in KernelDirs(e, req.schema) && |dir| == 3 && |k| == 4 && Key(dir) <= k
    ensures Key(dir) == k[..3] && IsCleaned(req, k)
  {
    hide Tree, KernelDirs, OnDisk;
    var namespace := KernelDirListed(e, req.schema, dir);
    KeyTake(dir, 2);
    assert k[..2] == k[..3][..2] == Key(["EFI", namespace]);
  }

  lemma KeptSpelled(req: Request, d: Disk, item: Item, asset: HashedAsset) returns (other: Item, b: HashedAsset)
    requires IsKept(req, d, item, asset) && IsCleaned(req, Key(WantedDest(req, item, asset)))
    ensures other in req.items && b in other.entry.Assets()
    ensures SpelledBy(req, Prepared(req, d), Key(WantedDest(req, item, asset)), other, b)
  {
    hide WantedDest, Prepared, IsCleaned, SpelledBy, Holds, NameOf;
    other, b :| other in req.items && b in other.entry.Assets()
      && SpelledBy(req, Prepared(req, d), Key(WantedDest(req, item, asset)), other, b);
  }

  /** The entry that spells the directory of an asset as it is listed. */
  lemma KeptDir(req: Request, d: Disk, run: SyncRun, item: Item, asset: HashedAsset, dir: Path)
    returns (other: Item, b: HashedAsset)
    requires Tree(d) && Modern(req) && CompleteRun(req, d, run) && Fits(req, run)
    requires item in req.items && asset in item.entry.Assets() && IsKept(req, d, item, asset)
    requires |dir| == 3 && Key(dir) <= Key(WantedDest(req, item, asset))
    requires dir in KernelDirs(InstallPhase(req, d, run).disk, req.schema)
    ensures other in req.items && b in other.entry.Assets() && |WantedDest(req, other, b)| == 4
    ensures Key(WantedDest(req, other, b)) == Key(WantedDest(req, item, asset))
    ensures dir == NamespaceDir(Prepared(req, d), EffectiveSchema(req, other).OsNamespace())
                   + [WantedDest(req, other, b)[2]]
  {
    hide Tree, Modern, WantedDest, CompleteRun, Installs, Prepared, KernelDirs, SameScaffold, NamespaceDir,
         EffectiveSchema, IsKept, IsCleaned, NameOf;
    var k := Key(WantedDest(req, item, asset));
    AssetKeyShape(req, item, asset);
    TurnDisk(req, d, run, |req.items|);
    PreparedIsTree(req, d, run);
    ListedIsCleaned(req, InstallPhase(req, d, run).disk, dir, k);
    other, b := KeptSpelled(req, d, item, asset);
    ModernItem(req, other);
    ListedDir(req, InstallPhase(req, d, run).disk, Prepared(req, d), req.schema, dir, k, other, b);
  }

  lemma AssetKeyShape(req: Request, item: Item, asset: HashedAsset)
    requires Modern(req) && item in req.items
    ensures |Key(WantedDest(req, item, asset))| == 4 && |Key(WantedDest(req, item, asset))[0]| == 3
  {
    ModernItem(req, item);
    DestShape(req, item, asset);
    hide WantedDest;
  }

  lemma KeptFile(req: Request, d: Disk, run: SyncRun, item: Item, asset: HashedAsset, dir: Path, q: Path)
    requires Tree(d) && Modern(req) && Genuine(req) && AgreeAssets(req) && CompleteRun(req, d, run) && Fits(req, run)
    requires item in req.items && asset in item.entry.Assets() && IsKept(req, d, item, asset)
    requires dir in KernelDirs(InstallPhase(req, d, run).disk, req.schema)
    requires q in FilesBelow(InstallPhase(req, d, run).disk, dir) && Key(q) == Key(WantedDest(req, item, asset))
    ensures !IsStaleFile(Results(req, d, run), q)
  {
    hide Tree, Modern, Genuine, AgreeAssets, WantedDest, CompleteRun, Wish, ContentFor, Installs, Prepared, Final,
         Results, KernelDirs, NameOf, SameScaffold, NamespaceDir, EffectiveSchema;
    KeptInstalled(req, d, run, item, asset);
    TurnDisk(req, d, run, |req.items|);
    var e := InstallPhase(req, d, run).disk;
    BelowEfi(e, req.schema, dir);
    var n := FileListed(e, dir, q);
    var other, b := KeptDir(req, d, run, item, asset, dir);
    var r := AccountsFor(req, d, run, other, b);
    AgreeOn(req, item, asset, other, b);
    WishLast(WantedDest(req, other, b));
    var base := NamespaceDir(Prepared(req, d), EffectiveSchema(req, other).OsNamespace());
    assert q == base + [WantedDest(req, other, b)[2]] + [n] == base + [WantedDest(req, other, b)[2], n];
  }

  lemma FileListed(e: Disk, dir: Path, q: Path) returns (n: string)
    requires Tree(e) && q in FilesBelow(e, dir)
    ensures q == dir + [n] && Key(dir) <= Key(q) && Key(q) in e && e[Key(q)].name == n
  {
    n :| n in Children(e, Key(dir)) && q == dir + [n];
    ListedUnderKey(e, dir);
  }

  /** Cleaning up spares the configurations of the entries. */
  lemma CleanupSparesConf(req: Request, d: Disk, run: SyncRun, item: Item, op: Op)
    requires Tree(d) && Modern(req) && AgreeConfs(req, Prepared(req, d)) && CompleteRun(req, d, run) && Fits(req, run)
    requires item in req.items && op in CleanupOps(run)
    ensures !Touches(op, Key(WantedConf(req, item)))
  {
    var k := Key(WantedConf(req, item));
    ConfKeyShape(req, item);
    hide Tree, Modern, AgreeConfs, WantedConf, CompleteRun, Installs, Prepared, Final, Results, Cleaned,
         LoaderFiles, KernelDirs, FilesBelow, IsStaleConf, IsStaleTree, IsStaleFile, NameOf;
    TwoPhases(req, d, run);
    var e := InstallPhase(req, d, run).disk;
    if op in run.confs {
      if Key(op.path) == k {
        KeptConf(req, d, run, item, op.path);
      }
    } else if op in run.trees {
      ListedElsewhere(e, req.schema, op.path, k);
    } else {
      var dir :| dir in KernelDirs(e, req.schema) && op.path in FilesBelow(e, dir);
      var n := FileListed(e, dir, op.path);
      ListedElsewhere(e, req.schema, dir, k);
    }
  }

  lemma ListedElsewhere(e: Disk, schema: Schema, dir: Path, k: Path)
    requires Tree(e) && dir in KernelDirs(e, schema) && IsConfPath(k)
    ensures !(Key(dir) <= k)
  {
    hide Tree, KernelDirs, OnDisk;
    var namespace := KernelDirListed(e, schema, dir);
    KeyTake(dir, 2);
    assert |Key(dir)[..2][0]| == 3;
  }

  /** A configuration listed under the key of an entry's is the one the entry wrote. */
  lemma KeptConf(req: Request, d: Disk, run: SyncRun, item: Item, q: Path)
    requires Tree(d) && Modern(req) && AgreeConfs(req, Prepared(req, d)) && CompleteRun(req, d, run) && Fits(req, run)
    requires item in req.items && Key(q) == Key(WantedConf(req, item))
    requires q in LoaderFiles(InstallPhase(req, d, run).disk, req.schema)
    ensures !IsStaleConf(Results(req, d, run), q)
  {
    hide Tree, Modern, AgreeConfs, WantedConf, CompleteRun, Installs, Prepared, JobOf, NameOf, EntriesDir,
         LoaderFiles, IsStaleConf, NamespaceDir, SameScaffold;
    var i :| 0 <= i < |req.items| && req.items[i] == item;
    var e, p := InstallPhase(req, d, run).disk, Prepared(req, d);
    TurnDisk(req, d, run, |req.items|);
    NamespaceAtEnd(req, d, run, i);
    EntriesAtEnd(req, d, run);
    ConfNamed(req, d, run, i, item);
    ConfInstalled(req, d, run, item);
    ConfUnprepared(req, d, item);
    LoaderFileName(e, req.schema, q);
    var r := Results(req, d, run)[i];
    assert r in Results(req, d, run);
    ConfSpelled(req, DiskAfter(req, d, run.picks, i), item);
    if Key(WantedConf(req, item)) !in DiskAfter(req, d, run.picks, i) {
      NameOfAbsent(req, p, item);
    }
    assert r.loaderConf == JobAt(req, d, run.picks, i).conf == q;
    WritesConf(Results(req, d, run), r);
  }

  lemma WritesConf(results: seq<InstallResult>, r: InstallResult)
    requires r in results
    ensures !IsStaleConf(results, r.loaderConf)
  {
  }

  lemma EntriesAtEnd(req: Request, d: Disk, run: SyncRun)
    requires Tree(d) && Modern(req) && CompleteRun(req, d, run) && Fits(req, run) && req.items != []
    ensures EntriesDir(InstallPhase(req, d, run).disk) == EntriesDir(Prepared(req, d))
  {
    hide Modern, CompleteRun, Installs, Prepared, EntriesDir, OnDisk, Made, RequestDirs;
    PreparedIsTree(req, d, run);
    TurnDisk(req, d, run, |req.items|);
    var e, p := InstallPhase(req, d, run).disk, Prepared(req, d);
    OnDiskPair(e, "loader", "entries");
    OnDiskPair(p, "loader", "entries");
    var j, k := Key(["loader"]), Key(["loader", "entries"]);
    assert IsScaffold(j) && IsScaffold(k);
    assert NodeAt(e, j) == NodeAt(p, j) && NodeAt(e, k) == NodeAt(p, k);
    EntriesOnDisk(e);
    EntriesOnDisk(p);
  }

  lemma LoaderFileName(e: Disk, schema: Schema, q: Path)
    requires Tree(e) && q in LoaderFiles(e, schema)
    ensures Key(q) in e && q == EntriesDir(e) + [e[Key(q)].name]
  {
    hide HasCleanedPrefix, EntriesDir;
    ListedUnderKey(e, EntriesDir(e));
  }

  lemma ConfSpelled(req: Request, e: Disk, item: Item)
    requires Tree(e)
    ensures JobOf(req, e, item).conf
         == EntriesDir(e) + [NameAt(e, Key(WantedConf(req, item)), ConfName(req, item))]
  {
    EntriesKey(e);
    KeyAppend(EntriesDir(e), [ConfName(req, item)]);
    KeyAppend(["loader", "entries"], [ConfName(req, item)]);
    assert ["loader", "entries"] + [ConfName(req, item)] == WantedConf(req, item);
    hide EntriesDir, GenerateEntry, AssetPairs, ConfName;
  }

  /** At the end every managed file is one that is asked for. */
  lemma ManagedIsAsked(req: Request, d: Disk, run: SyncRun, k: Path)
    requires Tree(d) && Modern(req) && CompleteRun(req, d, run) && IsManaged(req, Final(req, d, run), k)
    ensures InTarget(req, k)
  {
    hide Tree, Modern, CompleteRun, Installs, Final, Results, Cleaned, CleanupOps, RemovesStale, Run, InTarget,
         IsManaged;
    TwoPhases(req, d, run);
    var e, f := InstallPhase(req, d, run).disk, Final(req, d, run);
    ManagedIsFile(req, f, k);
    RemovalsShrink(e, CleanupOps(run), k);
    TreeRun(e, CleanupOps(run));
    RunAccounts(req, d, run);
    SurvivorIsTarget(req, e, f, Results(req, d, run), k);
  }

  lemma RunAccounts(req: Request, d: Disk, run: SyncRun)
    requires Tree(d) && Modern(req) && CompleteRun(req, d, run) && Fits(req, run)
    ensures Account(req, Results(req, d, run))
  {
    hide Tree, Modern, CompleteRun, Installs, JobOf, ResultOf, InTarget, Made, RequestDirs, SameScaffold;
    var results := Results(req, d, run);
    forall r | r in results
      ensures InTarget(req, Key(r.loaderConf)) && forall q | q in r.kernelFiles :: InTarget(req, Key(q))
    {
      var i :| 0 <= i < |results| && results[i] == r;
      TurnDisk(req, d, run, i);
      ResultAccounts(req, DiskAfter(req, d, run.picks, i), req.items[i]);
      assert r in [ResultOf(JobAt(req, d, run.picks, i))];
    }
  }

  /** At the end every target is there. */
  lemma TargetIsThere(req: Request, d: Disk, run: SyncRun, k: Path, node: Node)
    requires Tree(d) && Modern(req) && Genuine(req) && Agrees(req, d) && AllKept(req, d) && CompleteRun(req, d, run)
    requires IsTarget(req, Prepared(req, d), k, node)
    ensures NodeAt(Final(req, d, run), k) == Some(node) && IsManaged(req, Final(req, d, run), k)
  {
    hide Tree, Modern, Genuine, AgreeAssets, AgreeConfs, CompleteRun, Installs, Prepared, Final, Results, Cleaned,
         CleanupOps, RemovesStale, JobOf, WantedDest, WantedConf, NameOf, Wish, Touches, IsKept, IsManaged,
         InTarget;
    TwoPhases(req, d, run);
    var e, p := InstallPhase(req, d, run).disk, Prepared(req, d);
    if item :| item in req.items && k == Key(WantedConf(req, item))
               && node == File(NameOf(p, WantedConf(req, item)), JobOf(req, p, item).text) {
      ConfInstalled(req, d, run, item);
      forall op | op in CleanupOps(run)
        ensures !Touches(op, k)
      {
        CleanupSparesConf(req, d, run, item, op);
      }
      ConfIsTarget(req, item);
    } else {
      var item, asset :| item in req.items && asset in item.entry.Assets() && k == Key(WantedDest(req, item, asset))
        && node == File(Wish(WantedDest(req, item, asset)), ContentOf(req.host, SourceOf(item, asset)));
      KeptInstalled(req, d, run, item, asset);
      forall op | op in CleanupOps(run)
        ensures !Touches(op, k)
      {
        CleanupSparesKept(req, d, run, item, asset, op);
      }
      AssetIsTarget(req, item, asset);
    }
    RunFrame(e, CleanupOps(run), k);
    TargetIsManaged(req, Final(req, d, run), k);
  }

  lemma ConfIsTarget(req: Request, item: Item)
    requires item in req.items
    ensures InTarget(req, Key(WantedConf(req, item)))
  {
    hide WantedConf, WantedDest;
  }

  lemma AssetIsTarget(req: Request, item: Item, asset: HashedAsset)
    requires item in req.items && asset in item.entry.Assets()
    ensures InTarget(req, Key(WantedDest(req, item, asset)))
  {
    hide WantedConf, WantedDest;
  }

  /** Every complete run converges, if the entries agree and every asset is kept. */
  lemma KeptConverges(req: Request, d: Disk, run: SyncRun)
    requires Tree(d) && Modern(req) && Genuine(req) && Agrees(req, d) && AllKept(req, d) && CompleteRun(req, d, run)
    ensures Converged(req, d, Final(req, d, run))
  {
    hide Tree, Modern, Genuine, Agrees, AllKept, CompleteRun, Prepared, Final, IsTarget, IsManaged, InTarget;
    var f, p := Final(req, d, run), Prepared(req, d);
    forall k, node
      ensures NodeAt(ManagedState(req, f), k) == Some(node) <==> IsTarget(req, p, k, node)
    {
      if IsTarget(req, p, k, node) {
        TargetIsThere(req, d, run, k, node);
      } else if IsManaged(req, f, k) {
        ManagedIsAsked(req, d, run, k);
        var asked := TargetNode(req, p, k);
        TargetIsThere(req, d, run, k, asked);
      }
    }
  }

  /**
   Convergence, exactly.  A run without read errors converges if and only if whatever leads to one file
   system node asks for the same, and the volume it starts from keeps every asset.
   */
  lemma ConvergesExactly(req: Request, d: Disk, run: SyncRun)
    requires Tree(d) && Modern(req) && Genuine(req)
    requires CompleteRun(req, d, run) && Fits(req, run) && InstallsExact(req, d, run.picks, |req.items|)
    ensures Converged(req, d, Final(req, d, run)) <==> Agrees(req, d) && AllKept(req, d)
  {
    hide Tree, Modern, Genuine, AgreeAssets, AgreeConfs, CompleteRun, Final, InstallsExact, WantedDest, IsKept,
         Converged, Prepared, Wish;
    if Agrees(req, d) && AllKept(req, d) {
      KeptConverges(req, d, run);
    }
    if Converged(req, d, Final(req, d, run)) {
      ConvergedAgrees(req, d, Final(req, d, run));
      forall item, asset | item in req.items && asset in item.entry.Assets()
        ensures IsKept(req, d, item, asset)
      {
        ConvergedHas(req, d, Final(req, d, run), item, asset);
        AgreesEach(req, item, asset);
        PresentIsKept(req, d, run, item, asset);
      }
    }
  }

  /** The same for a synchronisation of a list of entries; read errors can only make it converge more often. */
  lemma SyncConverges(req: Request, host: Host, schema: Schema, global: GlobalCmdline, entries: seq<Entry>,
                      d: Disk, run: SyncRun)
    requires IsRequest(req, host, schema, global, entries) && Modern(req) && Tree(d)
    requires CompleteRun(req, d, run) && Fits(req, run)
    ensures Agrees(req, d) && AllKept(req, d) ==> Converged(req, d, Final(req, d, run))
    ensures Converged(req, d, Final(req, d, run)) && InstallsExact(req, d, run.picks, |req.items|) ==>
              Agrees(req, d) && AllKept(req, d)
  {
    hide IsRequest, Modern, Tree, CompleteRun, InstallsExact, Converged, Agrees, AllKept, Final;
    RequestIsGenuine(req, host, schema, global, entries);
    if Agrees(req, d) && AllKept(req, d) {
      KeptConverges(req, d, run);
    }
    if InstallsExact(req, d, run.picks, |req.items|) {
      ConvergesExactly(req, d, run);
    }
  }

  /** What a request and a volume are to be like for a run to converge. */
  ghost predicate Keeps(req: Request, d: Disk) {
    Tree(d) && Modern(req) && Genuine(req) && Agrees(req, d) && AllKept(req, d)
  }

  lemma ConfThere(req: Request, d: Disk, run: SyncRun, item: Item)
    requires Keeps(req, d) && CompleteRun(req, d, run) && item in req.items
    ensures Holds(Final(req, d, run), Key(WantedConf(req, item)), JobOf(req, Prepared(req, d), item).text)
  {
    var p := Prepared(req, d);
    hide Tree, Modern, Genuine, Agrees, AllKept, CompleteRun, Prepared, Final, WantedConf, JobOf, NameOf,
         IsManaged, IsAssetTarget;
    var k, node := Key(WantedConf(req, item)), File(NameOf(p, WantedConf(req, item)), JobOf(req, p, item).text);
    assert IsConfTarget(req, p, k, node);
    TargetIsThere(req, d, run, k, node);
  }

  lemma AssetThere(req: Request, d: Disk, run: SyncRun, item: Item, asset: HashedAsset)
    requires Keeps(req, d) && CompleteRun(req, d, run) && item in req.items && asset in item.entry.Assets()
    ensures Holds(Final(req, d, run), Key(WantedDest(req, item, asset)), ContentFor(req, item, asset))
  {
    var p := Prepared(req, d);
    hide Tree, Modern, Genuine, Agrees, AllKept, CompleteRun, Prepared, Final, WantedDest, IsManaged, IsConfTarget,
         Wish;
    var w := WantedDest(req, item, asset);
    var k, node := Key(w), File(Wish(w), ContentFor(req, item, asset));
    assert IsAssetTarget(req, k, node);
    TargetIsThere(req, d, run, k, node);
  }

  // ---------------------------------------------------------------- the usual case

  /** A tidy request agrees with itself, and a well-spelled volume keeps what it asks for. */
  lemma ReadyIsKept(req: Request, d: Disk)
    requires Ready(req, d)
    ensures Agrees(req, d) && AllKept(req, d)
  {
    hide Tree, Modern, Genuine, WellSpelled, IsWanted, WantedDest, WantedConf, Prepared, Wish, NameOf, JobOf,
         IsKept, ConfName;
    forall item, asset, other, b | item in req.items && asset in item.entry.Assets()
                                   && other in req.items && b in other.entry.Assets()
                                   && Key(WantedDest(req, item, asset)) == Key(WantedDest(req, other, b))
      ensures Wish(WantedDest(req, item, asset)) == Wish(WantedDest(req, other, b))
      ensures ContentFor(req, item, asset) == ContentFor(req, other, b)
    {
      SameKeySameContent(req, item, asset, other, b);
    }
    forall item, other | item in req.items && other in req.items
                         && Key(WantedConf(req, item)) == Key(WantedConf(req, other))
      ensures item == other
    {
      SameConf(req, item, other);
    }
    forall item, asset | item in req.items && asset in item.entry.Assets()
      ensures IsKept(req, d, item, asset)
    {
      ReadyKeeps(req, d, item, asset);
    }
  }

  lemma SameConf(req: Request, item: Item, other: Item)
    requires Tidy(req) && item in req.items && other in req.items
    requires Key(WantedConf(req, item)) == Key(WantedConf(req, other))
    ensures item == other
  {
    hide IsWanted, Modern, ConfName;
    WantedConfIsWanted(req, item);
    WantedConfIsWanted(req, other);
    assert WantedConf(req, item)[2] == WantedConf(req, other)[2];
    var i :| 0 <= i < |req.items| && req.items[i] == item;
    var j :| 0 <= j < |req.items| && req.items[j] == other;
    assert ConfName(req, req.items[i]) == ConfName(req, req.items[j]);
  }

  lemma ReadyKeeps(req: Request, d: Disk, item: Item, asset: HashedAsset)
    requires Ready(req, d) && item in req.items && asset in item.entry.Assets()
    ensures IsKept(req, d, item, asset)
  {
    hide Tree, Genuine, IsWanted, WantedDest, Prepared, Wish, NameOf, SpelledAs, IsCleaned;
    TidyModern(req);
    ModernItem(req, item);
    DestShape(req, item, asset);
    assert SpelledAs(d, WantedDest(req, item, asset));
    LeafSpelled(req, d, item, asset);
    PreparedSpelled(req, d, item, asset);
    assert SpelledBy(req, Prepared(req, d), Key(WantedDest(req, item, asset)), item, asset);
  }

  /** Whichever entry makes a directory first, it is spelled as all of them want it. */
  lemma PreparedSpelled(req: Request, d: Disk, item: Item, asset: HashedAsset)
    requires Tidy(req) && item in req.items && asset in item.entry.Assets()
    requires |WantedDest(req, item, asset)| == 4 && SpelledAs(d, WantedDest(req, item, asset))
    ensures NameOf(Prepared(req, d), WantedDest(req, item, asset)[..3]) == WantedDest(req, item, asset)[2]
  {
    var w := WantedDest(req, item, asset)[..3];
    var k, dirs := Key(w), RequestDirs(req, |req.items|);
    assert NameOf(d, w) == w[2];
    WantedDestIsWanted(req, item, asset);
    WantedPrefix(req, WantedDest(req, item, asset), w);
    hide WantedDest, IsWanted, Modern, RequestDirs, Made, ItemDirs, SpelledAs;
    if k in d {
      MadeKeeps(d, dirs, k);
    } else if k in Made(d, dirs) {
      var dir := MadeByEntry(req, d, k);
      assert dir == w;
    }
  }

  /** A kernel directory that is new is one that some entry wants. */
  lemma MadeByEntry(req: Request, d: Disk, k: Path) returns (dir: Path)
    requires Tidy(req) && |k| == 3 && k !in d && k in Prepared(req, d)
    ensures IsWanted(req, dir) && Key(dir) == k && Prepared(req, d)[k] == Dir(dir[2])
  {
    hide Tidy, IsWanted, RequestDirs, Made;
    var dirs := RequestDirs(req, |req.items|);
    MadeName(d, dirs, k);
    dir :| dir in dirs && k <= Key(dir) && Made(d, dirs)[k] == Dir(dir[|k| - 1]);
    RequestDirsWanted(req, |req.items|, dir);
    assert |dir| == |Key(dir)| == 3;
  }

  lemma {:induction false} RequestDirsWanted(req: Request, n: nat, dir: Path)
    requires Tidy(req) && n <= |req.items| && dir in RequestDirs(req, n)
    ensures |dir| <= 3 && (|dir| == 3 ==> IsWanted(req, dir))
  {
    hide IsWanted, WantedDest, Tidy;
    if dir in RequestDirs(req, n - 1) {
      RequestDirsWanted(req, n - 1, dir);
    } else if dir != ["loader", "entries"] {
      var item := req.items[n - 1];
      var dirs := AssetDirs(req, item);
      var i :| 0 <= i < |dirs| && dirs[i] == dir;
      DirWanted(req, item, item.entry.Assets()[i]);
    }
  }

  lemma DirWanted(req: Request, item: Item, asset: HashedAsset)
    requires Tidy(req) && item in req.items && asset in item.entry.Assets()
    ensures |ParentOf(WantedDest(req, item, asset))| == 3 && IsWanted(req, ParentOf(WantedDest(req, item, asset)))
  {
    TidyModern(req);
    ModernItem(req, item);
    DestShape(req, item, asset);
    WantedDestIsWanted(req, item, asset);
    hide WantedDest, IsWanted, Tidy;
    WantedPrefix(req, WantedDest(req, item, asset), ParentOf(WantedDest(req, item, asset)));
  }
}
