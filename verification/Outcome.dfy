/** What is managed, what a request asks for, and that cleaning up leaves nothing else among the managed files. */
module Outcome {
  import opened Text
  import opened Fat
  import opened Volumes
  import opened Entries
  import opened Assets
  import opened Conf
  import opened SyncPlan
  import opened Loaders
  import opened Frame
  import opened Wanted
  import opened Convergence

  // ---------------------------------------------------------------- managed files

  /** A loader configuration with one of our prefixes. */
  ghost predicate InConfArea(req: Request, d: Disk, k: Path) {
    k in d && InEntries(k) && HasCleanedPrefix(req.schema, d[k].name)
  }

  /** A file directly inside a directory of a cleaned namespace. */
  ghost predicate InAssetArea(req: Request, k: Path) {
    |k| == 4 && IsCleaned(req, k)
  }

  /** What the request itself installs. */
  ghost predicate InTarget(req: Request, k: Path) {
    k in ConfKeys(req) || k in AssetKeys(req)
  }

  ghost predicate IsManaged(req: Request, d: Disk, k: Path) {
    IsFile(d, k) && (InConfArea(req, d, k) || InAssetArea(req, k) || InTarget(req, k))
  }

  ghost function ManagedState(req: Request, d: Disk): Disk {
    map k | k in d && IsManaged(req, d, k) :: d[k]
  }

  /** What the request asks to be stored under a key, on a volume that spells like `d`. */
  ghost predicate IsTarget(req: Request, d: Disk, k: Path, node: Node) {
    IsConfTarget(req, d, k, node) || IsAssetTarget(req, k, node)
  }

  ghost predicate IsConfTarget(req: Request, d: Disk, k: Path, node: Node) {
    exists item | item in req.items ::
      k == Key(WantedConf(req, item))
      && node == File(NameOf(d, WantedConf(req, item)), JobOf(req, d, item).text)
  }

  ghost predicate IsAssetTarget(req: Request, k: Path, node: Node) {
    exists item, asset | item in req.items && asset in item.entry.Assets() ::
      k == Key(WantedDest(req, item, asset))
      && node == File(Wish(WantedDest(req, item, asset)), ContentOf(req.host, SourceOf(item, asset)))
  }

  /** The usual case: nothing wanted differs only in case, and what is on the volume is spelled as wanted. */
  ghost predicate Ready(req: Request, d: Disk) {
    Tree(d) && Tidy(req) && Genuine(req) && WellSpelled(req, d)
  }

  // ---------------------------------------------------------------- what is listed

  /** A listed kernel directory is spelled as the volume spells its path, and is there. */
  lemma KernelDirListed(e: Disk, schema: Schema, dir: Path) returns (namespace: string)
    requires Tree(e) && dir in KernelDirs(e, schema)
    ensures namespace in schema.CleanedNamespaces() && |dir| == 3
    ensures Key(dir[..2]) == Key(["EFI", namespace]) && dir[..2] == OnDisk(e, ["EFI", namespace])
    ensures Key(dir) in e && e[Key(dir)].name == dir[2] && Key(["EFI", namespace]) in e
  {
    hide NamespaceDir;
    var ns, m :| ns in schema.CleanedNamespaces() && m in Children(e, Key(NamespaceDir(e, ns)))
      && dir == NamespaceDir(e, ns) + [m];
    namespace := ns;
    NamespaceOnDisk(e, namespace);
    OnDiskKey(e, ["EFI", namespace]);
    ListedUnderKey(e, NamespaceDir(e, namespace));
    assert dir[..2] == NamespaceDir(e, namespace);
    assert Placed(e, Key(dir));
    assert Parent(Key(dir)) == Key(["EFI", namespace]);
    hide Children, OnDisk;
  }

  /** A listed kernel directory lies in a namespace. */
  lemma BelowEfi(e: Disk, schema: Schema, dir: Path)
    requires Tree(e) && dir in KernelDirs(e, schema)
    ensures |dir| == 3 && |Key(dir)[0]| == 3
  {
    hide Tree, KernelDirs, OnDisk;
    var namespace := KernelDirListed(e, schema, dir);
    KeyTake(dir, 2);
    assert |Key(dir)[..2][0]| == |Key(["EFI", namespace])[0]| == 3;
  }

  lemma SharedDirKept(schema: Schema, results: seq<InstallResult>, dir: Path)
    requires !schema.Legacy? && dir != [] && Last(dir) == "shared"
    ensures !IsStaleTree(schema, results, dir)
  {
  }

  lemma ResultDirKept(schema: Schema, results: seq<InstallResult>, r: InstallResult)
    requires r in results
    ensures !IsStaleTree(schema, results, r.kernelDir)
  {
  }

  // ---------------------------------------------------------------- nothing else is left

  lemma KernelDirKey(d: Disk, namespace: string, k: Path)
    requires Tree(d) && |k| == 4 && k in d && k[..2] == Key(["EFI", namespace])
    ensures IsDir(d, k[..3]) && k[..3] in d
    ensures var dir := NamespaceDir(d, namespace) + [d[k[..3]].name];
            Key(dir) == k[..3] && d[k[..3]].name in Children(d, Key(NamespaceDir(d, namespace)))
            && (IsFile(d, k) ==> dir + [d[k].name] in FilesBelow(d, dir))
            && Key(dir + [d[k].name]) == k
  {
    hide NamespaceDir;
    assert Placed(d, k);
    assert Parent(k) == k[..3];
    assert Placed(d, k[..3]);
    var m, n := d[k[..3]].name, d[k].name;
    NamespaceKey(d, namespace);
    var base := NamespaceDir(d, namespace);
    KeyAppend(base, [m]);
    assert Key([m]) == [Fold(m)];
    assert k[..3] == k[..2] + [Last(k[..3])];
    assert Parent(k[..3]) == k[..2];
    var dir := base + [m];
    KeyAppend(dir, [n]);
    assert Key([n]) == [Fold(n)];
    assert k == k[..3] + [Last(k)];
    ListedUnderKey(d, dir);
  }

  /** Whatever the results account for belongs to the request. */
  ghost predicate Account(req: Request, results: seq<InstallResult>) {
    forall r | r in results ::
      InTarget(req, Key(r.loaderConf)) && forall q | q in r.kernelFiles :: InTarget(req, Key(q))
  }

  /** A managed file that survived cleaning up belongs to the request. */
  lemma SurvivorIsTarget(req: Request, e: Disk, f: Disk, results: seq<InstallResult>, k: Path)
    requires Tree(e) && Tree(f) && Account(req, results)
    requires Cleaned(e, f, req.schema, results) && IsManaged(req, f, k) && k in e && e[k] == f[k]
    ensures InTarget(req, k)
  {
    if InConfArea(req, f, k) {
      SurvivingConf(req, e, f, results, k);
    } else if InAssetArea(req, k) {
      SurvivingAsset(req, e, f, results, k);
    }
  }

  lemma SurvivingConf(req: Request, e: Disk, f: Disk, results: seq<InstallResult>, k: Path)
    requires Tree(e) && Account(req, results)
    requires Cleaned(e, f, req.schema, results) && IsFile(f, k) && InConfArea(req, f, k) && k in e && e[k] == f[k]
    ensures InTarget(req, k)
  {
    hide EntriesDir, HasCleanedPrefix, StaleTrees, StaleFiles, LoaderFiles, Tree, InTarget;
    var q := EntriesDir(e) + [e[k].name];
    ConfListed(req, e, k);
    assert !IsStaleConf(results, q);
  }

  lemma ConfListed(req: Request, e: Disk, k: Path)
    requires Tree(e) && InConfArea(req, e, k)
    ensures EntriesDir(e) + [e[k].name] in LoaderFiles(e, req.schema) && Key(EntriesDir(e) + [e[k].name]) == k
  {
    hide EntriesDir, HasCleanedPrefix, Tree, Children;
    EntriesKey(e);
    ChildAt(e, EntriesDir(e), k);
  }

  /** A node below a directory is listed there, and found under the spelling it has. */
  lemma ChildAt(d: Disk, base: Path, k: Path)
    requires Tree(d) && k in d && k != [] && Parent(k) == Key(base)
    ensures d[k].name in Children(d, Key(base)) && Key(base + [d[k].name]) == k
  {
    assert Placed(d, k);
    var n := d[k].name;
    KeyAppend(base, [n]);
    assert Key([n]) == [Fold(n)];
    assert k == Parent(k) + [Last(k)];
  }

  lemma SurvivingAsset(req: Request, e: Disk, f: Disk, results: seq<InstallResult>, k: Path)
    requires Tree(e) && Tree(f) && Account(req, results)
    requires Cleaned(e, f, req.schema, results) && IsFile(f, k) && InAssetArea(req, k) && k in e && e[k] == f[k]
    ensures InTarget(req, k)
  {
    hide InTarget, Tree, NamespaceDir, Cleaned;
    var namespace :| namespace in req.schema.CleanedNamespaces() && k[..2] == Key(["EFI", namespace]);
    SurvivorAccounted(req, e, f, results, namespace, k);
    SpelledKey(e, namespace, k);
  }

  /** A listed file of a cleaned namespace that cleaning up leaves is one that some entry accounts for. */
  lemma SurvivorAccounted(req: Request, e: Disk, f: Disk, results: seq<InstallResult>, namespace: string, k: Path)
    requires Tree(e) && Tree(f) && Cleaned(e, f, req.schema, results)
    requires namespace in req.schema.CleanedNamespaces() && |k| == 4 && k[..2] == Key(["EFI", namespace])
    requires IsFile(f, k) && k in e && e[k] == f[k]
    ensures k[..3] in e
    ensures exists r | r in results ::
              NamespaceDir(e, namespace) + [e[k[..3]].name, e[k].name] in r.kernelFiles
  {
    hide NamespaceDir, IsStaleTree, IsStaleFile, FilesBelow, StaleConfs;
    KernelDirKey(e, namespace, k);
    var dir := NamespaceDir(e, namespace) + [e[k[..3]].name];
    var q := dir + [e[k].name];
    assert dir in KernelDirs(e, req.schema);
    assert k[..3] in f by {
      assert Placed(f, k);
      assert Parent(k) == k[..3];
    }
    assert !IsStaleTree(req.schema, results, dir);
    assert !IsStaleFile(results, q);
    assert q == NamespaceDir(e, namespace) + [e[k[..3]].name, e[k].name];
    Accounted(results, q);
  }

  lemma Accounted(results: seq<InstallResult>, q: Path)
    requires !IsStaleFile(results, q)
    ensures exists r | r in results :: q in r.kernelFiles
  {
  }

  lemma SpelledKey(e: Disk, namespace: string, k: Path)
    requires Tree(e) && |k| == 4 && k in e && k[..2] == Key(["EFI", namespace])
    ensures k[..3] in e && Key(NamespaceDir(e, namespace) + [e[k[..3]].name, e[k].name]) == k
  {
    hide NamespaceDir;
    KernelDirKey(e, namespace, k);
    assert NamespaceDir(e, namespace) + [e[k[..3]].name] + [e[k].name]
        == NamespaceDir(e, namespace) + [e[k[..3]].name, e[k].name];
  }

  lemma ResultAccounts(req: Request, d: Disk, item: Item)
    requires Tree(d) && item in req.items
    ensures Account(req, [ResultOf(JobOf(req, d, item))])
  {
    hide JobOf, InTarget, Tree;
    var r := ResultOf(JobOf(req, d, item));
    forall q | q in r.kernelFiles
      ensures InTarget(req, Key(q))
    {
      FileOfJob(req, d, item, q);
    }
    ConfOfJob(req, d, item);
  }

  lemma ConfOfJob(req: Request, d: Disk, item: Item)
    requires Tree(d) && item in req.items
    ensures InTarget(req, Key(JobOf(req, d, item).conf))
  {
    hide JobOf, WantedConf, WantedDest, Tree;
    ConfLength(req, d, item);
  }

  lemma FileOfJob(req: Request, d: Disk, item: Item, q: Path)
    requires Tree(d) && item in req.items && q in Dests(JobOf(req, d, item).changeset)
    ensures InTarget(req, Key(q))
  {
    hide GenerateEntry, AssetPair, Tree, WantedDest;
    var assets, dests := item.entry.Assets(), Dests(JobOf(req, d, item).changeset);
    var j :| 0 <= j < |dests| && dests[j] == q;
    assert q == AssetPair(req, d, item, assets[j]).dest;
    PairOfAsset(req, d, item, assets[j]);
  }

  // ---------------------------------------------------------------- a whole run

  ghost function Final(req: Request, d: Disk, run: SyncRun): Disk
    requires CompleteRun(req, d, run)
  {
    Run(d, SyncOps(req, d, run))
  }

  lemma CleanupRemoves(e: Disk, schema: Schema, results: seq<InstallResult>, run: SyncRun)
    requires RemovesStale(e, schema, results, run)
    ensures forall op | op in CleanupOps(run) :: IsRemoval(op)
  {
    hide StaleConfs, StaleTrees, StaleFiles;
  }

  /** The pair of an asset, found in the changeset of its entry. */
  lemma PairOfAsset(req: Request, d: Disk, item: Item, asset: HashedAsset)
    requires Tree(d) && asset in item.entry.Assets()
    ensures var pair := AssetPair(req, d, item, asset);
            && pair in JobOf(req, d, item).changeset && pair.source == SourceOf(item, asset)
            && Key(pair.dest) == Key(WantedDest(req, item, asset))
  {
    hide GenerateEntry, HashedAsset.InstalledName;
    var assets := item.entry.Assets();
    var j :| 0 <= j < |assets| && assets[j] == asset;
    assert JobOf(req, d, item).changeset[j] == AssetPair(req, d, item, asset);
    AssetPairKey(req, d, item, asset);
  }

  lemma LeafSpelled(req: Request, d: Disk, item: Item, asset: HashedAsset)
    requires !EffectiveSchema(req, item).Legacy? && SpelledAs(d, WantedDest(req, item, asset))
    ensures NameOf(d, WantedDest(req, item, asset)) == Wish(WantedDest(req, item, asset))
  {
    var w := WantedDest(req, item, asset);
    DestShape(req, item, asset);
    hide WantedDest;
    assert w[..4] == w;
  }

  lemma ManagedIsFile(req: Request, d: Disk, k: Path)
    requires IsManaged(req, d, k)
    ensures IsFile(d, k)
  {
  }

  lemma TargetIsManaged(req: Request, d: Disk, k: Path)
    requires IsFile(d, k) && InTarget(req, k)
    ensures IsManaged(req, d, k)
  {
  }

  lemma TargetNode(req: Request, d: Disk, k: Path) returns (node: Node)
    requires InTarget(req, k)
    ensures IsTarget(req, d, k, node)
  {
    hide JobOf, WantedDest, WantedConf;
    if item :| item in req.items && k == Key(WantedConf(req, item)) {
      node := File(NameOf(d, WantedConf(req, item)), JobOf(req, d, item).text);
    } else {
      var item, asset :| item in req.items && asset in item.entry.Assets() && k == Key(WantedDest(req, item, asset));
      node := File(Wish(WantedDest(req, item, asset)), ContentOf(req.host, SourceOf(item, asset)));
    }
  }

  lemma SyncOpsParts(req: Request, d: Disk, run: SyncRun)
    requires CompleteRun(req, d, run)
    ensures Fits(req, run) && SyncOps(req, d, run) == InstallPhase(req, d, run).ops + CleanupOps(run)
  {
    hide Installs, InstallsJustified, RemovesStale, Cleaned, AllCan, Results;
  }
}
