/** What a synchronisation can touch, under every schema and however it ends. */
module Frame {
  import opened Text
  import opened Fat
  import opened Volumes
  import opened AtomicCopy
  import opened Assets
  import opened SyncPlan
  import opened Loaders

  ghost function ConfKeys(req: Request): set<Path> {
    set item | item in req.items :: Key(WantedConf(req, item))
  }

  ghost function AssetKeys(req: Request): set<Path> {
    set item, asset | item in req.items && asset in item.entry.Assets() :: Key(WantedDest(req, item, asset))
  }

  /** Where the copy of an asset is staged. */
  function StagingKey(req: Request, item: Item, asset: HashedAsset): Path {
    Key(Staging(WantedDest(req, item, asset)))
  }

  ghost function StagingKeys(req: Request): set<Path> {
    set item, asset | item in req.items && asset in item.entry.Assets() :: StagingKey(req, item, asset)
  }

  /** The files an installation may write: configurations, assets and their staging files. */
  ghost function FilesOf(req: Request): set<Path> {
    ConfKeys(req) + AssetKeys(req) + StagingKeys(req)
  }

  /** What cleaning up may remove: prefixed loader files, and what lies below directories of our namespaces. */
  ghost predicate InCleanedArea(req: Request, d: Disk, k: Path) {
    || (InEntries(k) && k in d && HasCleanedPrefix(req.schema, d[k].name))
    || (|k| >= 3 && IsCleaned(req, k))
  }

  /** The directories above the entries' configurations and assets. */
  ghost predicate InScaffold(req: Request, k: Path) {
    || k <= Key(["loader", "entries"])
    || (exists item, asset | item in req.items && asset in item.entry.Assets() :: k < Key(WantedDest(req, item, asset)))
  }

  /** Outside the footprint an installing operation can only create a directory above it. */
  lemma ShapeSpares(req: Request, op: Op, k: Path)
    requires InstallShape(req, op) && k !in FilesOf(req)
    ensures !Touches(op, k) || (op.MkDir? && InScaffold(req, k))
  {
    hide WantedDest, WantedConf, Staging, CopyShape;
    if item, asset, dest: Path :| item in req.items && asset in item.entry.Assets() && dest != []
                                  && Key(dest) == Key(WantedDest(req, item, asset)) && CopyShape(op, dest) {
      SameStaging(dest, WantedDest(req, item, asset));
      assert StagingKey(req, item, asset) in StagingKeys(req);
      CopySpares(op, dest, k);
      assert Key(dest) == Key(WantedDest(req, item, asset));
    }
  }

  lemma CopySpares(op: Op, dest: Path, k: Path)
    requires dest != [] && CopyShape(op, dest) && k != Key(dest) && k != Key(Staging(dest))
    ensures !Touches(op, k) || (op.MkDir? && k < Key(dest))
  {
    hide Staging;
    if op.MkDir? {
      KeyTake(dest, |op.path|);
      assert op.path == dest[..|op.path|];
    }
  }

  lemma {:induction false} MostlyMkDirs(d: Disk, ops: seq<Op>, k: Path, made: bool)
    requires forall op | op in ops :: !Touches(op, k) || (op.MkDir? && made)
    ensures k in d ==> NodeAt(Run(d, ops), k) == NodeAt(d, k)
    ensures k !in d && k in Run(d, ops) ==> made && Run(d, ops)[k].Dir?
    decreases |ops|
  {
    if ops != [] {
      var op, e := ops[0], Apply(d, ops[0]);
      assert op in ops && forall o | o in ops[1..] :: o in ops;
      MostlyMkDirs(e, ops[1..], k, made);
      assert k in d ==> NodeAt(e, k) == NodeAt(d, k);
      assert k !in d && k in e ==> made && e[k].Dir?;
    }
  }

  /**
   However far installing gets, and under every schema, nothing that was there changes except destinations,
   staging files and configurations of the entries; elsewhere only the directories above these are added.
   */
  lemma InstallFrame(req: Request, d: Disk, ops: seq<Op>, k: Path)
    requires InstallShapes(req, ops) && k !in FilesOf(req)
    ensures k in d ==> NodeAt(Run(d, ops), k) == NodeAt(d, k)
    ensures k !in d && k in Run(d, ops) ==> InScaffold(req, k) && Run(d, ops)[k].Dir?
  {
    hide InstallShape, FilesOf, InScaffold, Run, Touches;
    forall op | op in ops
      ensures !Touches(op, k) || (op.MkDir? && InScaffold(req, k))
    {
      ShapeSpares(req, op, k);
    }
    MostlyMkDirs(d, ops, k, InScaffold(req, k));
  }

  /** A removal of cleaning up stays within the cleaned area. */
  lemma CleanupWithin(req: Request, e: Disk, results: seq<InstallResult>, run: SyncRun, op: Op, k: Path)
    requires Tree(e) && RemovesStale(e, req.schema, results, run) && op in CleanupOps(run)
    requires !InCleanedArea(req, e, k)
    ensures IsRemoval(op) && !Touches(op, k)
  {
    hide Tree, InCleanedArea, LoaderFiles, KernelDirs, FilesBelow, IsStaleConf, IsStaleTree, IsStaleFile;
    if op in run.confs {
      LoaderFileArea(req, e, op.path);
    } else if op in run.trees {
      KernelDirArea(req, e, op.path);
    } else {
      var dir :| dir in KernelDirs(e, req.schema) && op.path in FilesBelow(e, dir);
      KernelDirArea(req, e, dir);
      FileBelowKey(e, dir, op.path);
    }
  }

  lemma FileBelowKey(e: Disk, dir: Path, p: Path)
    requires p in FilesBelow(e, dir)
    ensures Key(dir) <= Key(p)
  {
    var n :| n in Children(e, Key(dir)) && p == dir + [n];
    KeyAppend(dir, [n]);
  }

  lemma LoaderFileArea(req: Request, e: Disk, p: Path)
    requires Tree(e) && p in LoaderFiles(e, req.schema)
    ensures InCleanedArea(req, e, Key(p))
  {
    hide HasCleanedPrefix;
    EntriesKey(e);
    ListedUnderKey(e, EntriesDir(e));
    hide EntriesDir, Children;
  }

  lemma KernelDirArea(req: Request, e: Disk, dir: Path)
    requires Tree(e) && dir in KernelDirs(e, req.schema)
    ensures forall k | Key(dir) <= k :: InCleanedArea(req, e, k)
  {
    hide NamespaceDir, HasCleanedPrefix;
    var namespace, n :| namespace in req.schema.CleanedNamespaces()
      && n in Children(e, Key(NamespaceDir(e, namespace))) && dir == NamespaceDir(e, namespace) + [n];
    NamespaceKey(e, namespace);
    KeyAppend(NamespaceDir(e, namespace), [n]);
    assert Key(dir)[..2] == Key(["EFI", namespace]);
    forall k | Key(dir) <= k
      ensures InCleanedArea(req, e, k)
    {
      assert k[..2] == Key(dir)[..2];
    }
  }

  /**
   A run that reaches its end, under every schema and whether or not removals fail, touches nothing that
   was there except its footprint and the cleaned area, and elsewhere only adds the directories above them.
   */
  lemma SyncFrame(req: Request, d: Disk, run: SyncRun, ops: seq<Op>, k: Path)
    requires Tree(d) && FinishedRun(req, d, run, ops)
    requires k !in FilesOf(req) && !InCleanedArea(req, d, k)
    ensures k in d ==> NodeAt(Run(d, ops), k) == NodeAt(d, k)
    ensures k !in d && k in Run(d, ops) ==> InScaffold(req, k) && Run(d, ops)[k].Dir?
  {
    hide InScaffold, FilesOf, InstallShapes, Run, Touches, Installs, RemovesStale, HasCleanedPrefix,
         InstallsResults, CleanupOps;
    var s := InstallPhase(req, d, run);
    InstallsRun(req, d, run.picks, |req.items|);
    RunConcat(d, s.ops, CleanupOps(run));
    TreeRun(d, s.ops);
    InstallFrame(req, d, s.ops, k);
    if k in s.disk && !(k in d) {
      CleanupShrinks(req, s.disk, Results(req, d, run), run, k);
    } else {
      forall op | op in CleanupOps(run)
        ensures !Touches(op, k)
      {
        CleanupWithin(req, s.disk, Results(req, d, run), run, op, k);
      }
      RunFrame(s.disk, CleanupOps(run), k);
    }
  }

  lemma CleanupShrinks(req: Request, e: Disk, results: seq<InstallResult>, run: SyncRun, k: Path)
    requires RemovesStale(e, req.schema, results, run) && k in e && e[k].Dir?
    ensures k !in Run(e, CleanupOps(run)) || Run(e, CleanupOps(run))[k].Dir?
  {
    hide StaleConfs, StaleTrees, StaleFiles, Run;
    RemovalsShrink(e, CleanupOps(run), k);
  }
}
