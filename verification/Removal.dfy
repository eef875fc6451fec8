/** Exactly which files a run removes, told from the request and the volume it starts from. */
module Removal {
  import opened Text
  import opened Fat
  import opened Volumes
  import opened AtomicCopy
  import opened Entries
  import opened SyncPlan
  import opened Loaders
  import opened Wanted
  import opened Outcome
  import opened Effects
  import opened Frame
  import opened Scaffold
  import opened Turns
  import opened Exactness
  import opened Cuts
  import opened RunShape
  import opened Integrity
  import opened PowerCut

  // ---------------------------------------------------------------- what a run removes

  /** The directory of an entry's kernel, as it is named on the volume. */
  predicate IsKernelDir(req: Request, item: Item, q: Path, name: string)
    requires |q| == 3
  {
    Key(["EFI", EffectiveSchema(req, item).OsNamespace()]) == q[..2] && item.entry.inner.kernel.version == name
  }

  /** A directory in a namespace that is cleaned, which is not the shared one and no entry's. */
  ghost predicate IsStaleDir(req: Request, d: Disk, q: Path) {
    && q in d && |q| == 3 && IsCleaned(req, q) && d[q].name != "shared"
    && forall item | item in req.items :: !IsKernelDir(req, item, q, d[q].name)
  }

  /**
   The files a run removes: configurations with our prefixes and files directly inside the directories of a
   namespace, if they are not asked for, and whatever lies deeper in directories that are stale.
   */
  ghost predicate IsRemoved(req: Request, d: Disk, r: Path) {
    && IsFile(d, r) && !InTarget(req, r)
    && (InConfArea(req, d, r) || InAssetArea(req, r) || (|r| > 4 && IsStaleDir(req, d, r[..3])))
  }

  // ---------------------------------------------------------------- stale directories

  /** A listed directory is an entry's exactly when it is named so. */
  lemma ListedAs(e: Disk, p: Disk, schema: Schema, dir: Path, ns: string, version: string)
    requires Tree(e) && Tree(p) && SameScaffold(e, p) && dir in KernelDirs(e, schema)
    ensures |dir| == 3 && Key(dir) in e && e[Key(dir)].name == dir[2]
    ensures dir == NamespaceDir(p, ns) + [version] <==> Key(["EFI", ns]) == Key(dir)[..2] && version == dir[2]
  {
    var namespace := KernelDirListed(e, schema, dir);
    hide Tree, KernelDirs, OnDisk, NamespaceDir, SameScaffold;
    KeyTake(dir, 2);
    NamespaceOnDisk(p, ns);
    NamespaceKey(p, ns);
    assert dir == dir[..2] + [dir[2]];
    if Key(["EFI", ns]) == Key(dir)[..2] {
      OnDiskSameKey(e, ["EFI", namespace], ["EFI", ns]);
      SpelledOnScaffold(e, p, ["EFI", ns]);
    }
    if dir == NamespaceDir(p, ns) + [version] {
      assert NamespaceDir(p, ns) == dir[..2];
    }
  }

  /** The directory of an entry's result. */
  lemma ResultDir(req: Request, d: Disk, run: SyncRun, i: nat)
    requires Tree(d) && Modern(req) && Genuine(req) && CompleteRun(req, d, run) && Fits(req, run) && i < |req.items|
    ensures Results(req, d, run)[i].kernelDir
         == NamespaceDir(Prepared(req, d), EffectiveSchema(req, req.items[i]).OsNamespace())
            + [req.items[i].entry.inner.kernel.version]
  {
    hide Tree, Modern, Genuine, CompleteRun, Installs, Prepared, JobOf, ResultOf, NamespaceDir, EffectiveSchema;
    ModernItem(req, req.items[i]);
    NamespaceAtEnd(req, d, run, i);
    assert Results(req, d, run)[i] == ResultOf(JobAt(req, d, run.picks, i));
    KernelDirSpelled(req, DiskAfter(req, d, run.picks, i), req.items[i]);
  }

  /** Which listed directories are stale, told from the volume the run starts from. */
  lemma StaleTreeIs(req: Request, d: Disk, run: SyncRun, dir: Path)
    requires Tree(d) && Modern(req) && Genuine(req) && CompleteRun(req, d, run) && Fits(req, run)
    requires dir in KernelDirs(InstallPhase(req, d, run).disk, req.schema) && Key(dir) in d
    ensures |dir| == 3
    ensures IsStaleTree(req.schema, Results(req, d, run), dir) <==> IsStaleDir(req, d, Key(dir))
  {
    hide Tree, Modern, Genuine, CompleteRun, Installs, Prepared, NamespaceDir, KernelDirs, EffectiveSchema,
         IsStaleTree, SameScaffold, ResultOf, IsCleaned;
    var e, results := InstallPhase(req, d, run).disk, Results(req, d, run);
    TurnDisk(req, d, run, |req.items|);
    PreparedIsTree(req, d, run);
    ListedName(req, d, run, dir);
    forall i | 0 <= i < |req.items|
      ensures results[i].kernelDir == dir <==> IsKernelDir(req, req.items[i], Key(dir), d[Key(dir)].name)
    {
      var item := req.items[i];
      ResultDir(req, d, run, i);
      ListedAs(e, Prepared(req, d), req.schema, dir, EffectiveSchema(req, item).OsNamespace(),
               item.entry.inner.kernel.version);
    }
    StaleIfNone(req, results, dir, Key(dir), d[Key(dir)].name);
  }

  lemma ListedName(req: Request, d: Disk, run: SyncRun, dir: Path)
    requires Tree(d) && Modern(req) && CompleteRun(req, d, run) && Fits(req, run)
    requires dir in KernelDirs(InstallPhase(req, d, run).disk, req.schema) && Key(dir) in d
    ensures |dir| == 3 && d[Key(dir)].name == dir[2] && IsCleaned(req, Key(dir))
  {
    hide Tree, Modern, CompleteRun, Installs, KernelDirs, SameScaffold;
    TurnDisk(req, d, run, |req.items|);
    var e := InstallPhase(req, d, run).disk;
    var namespace := KernelDirListed(e, req.schema, dir);
    BelowEfi(e, req.schema, dir);
    DirNameStays(req, d, run.picks, |req.items|, Key(dir));
    KeyTake(dir, 2);
  }

  lemma StaleIfNone(req: Request, results: seq<InstallResult>, dir: Path, q: Path, name: string)
    requires Modern(req) && |dir| == 3 && dir[2] == name && |results| == |req.items| && |q| == 3
    requires forall i | 0 <= i < |req.items| ::
               results[i].kernelDir == dir <==> IsKernelDir(req, req.items[i], q, name)
    ensures IsStaleTree(req.schema, results, dir) <==>
              name != "shared" && forall item | item in req.items :: !IsKernelDir(req, item, q, name)
  {
    hide IsKernelDir;
    assert Last(dir) == name;
    assert FileName(dir) == Some("shared") <==> name == "shared";
    if IsStaleTree(req.schema, results, dir) {
      forall item | item in req.items
        ensures !IsKernelDir(req, item, q, name)
      {
        var i :| 0 <= i < |req.items| && req.items[i] == item;
        assert results[i] in results;
      }
    }
    if name != "shared" && forall item | item in req.items :: !IsKernelDir(req, item, q, name) {
      forall r | r in results
        ensures r.kernelDir != dir
      {
        var i :| 0 <= i < |results| && results[i] == r;
        assert req.items[i] in req.items;
      }
    }
  }

  // ---------------------------------------------------------------- what installing leaves alone

  /** The disk when all entries are installed, as a state of the run. */
  lemma AtInstalled(req: Request, d: Disk, run: SyncRun)
    requires CompleteRun(req, d, run) && Fits(req, run)
    ensures Installed(req, d, run) <= |SyncOps(req, d, run)|
    ensures SyncOps(req, d, run)[..Installed(req, d, run)] == InstallPhase(req, d, run).ops
    ensures SyncOps(req, d, run)[Installed(req, d, run)..] == CleanupOps(run)
    ensures Run(d, SyncOps(req, d, run)[..Installed(req, d, run)]) == InstallPhase(req, d, run).disk
  {
    hide CompleteRun, Installs, CleanupOps, Run, PicksFit;
    SyncOpsParts(req, d, run);
    InstallsRun(req, d, run.picks, |req.items|);
    TwoParts(InstallPhase(req, d, run).ops, CleanupOps(run));
  }

  lemma TwoParts<T>(a: seq<T>, b: seq<T>)
    ensures (a + b)[..|a|] == a && (a + b)[|a|..] == b
  {
  }

  /** Installing writes only the configurations of the request. */
  lemma NotRewritten(req: Request, d: Disk, ops: seq<Op>, installed: nat, cleared: nat, r: Path)
    requires IsRun(req, d, ops, installed, cleared) && InEntries(r) && r !in ConfKeys(req)
    ensures installed <= |ops| && Untouched(ops, installed, r)
  {
    hide IsRun, ConfKeys, InEntries, Installing, Clears;
    RunBounds(req, d, ops, installed, cleared);
    forall j | 0 <= j < installed
      ensures !Alters(ops[j], r)
    {
      OpKind(req, d, ops, installed, cleared, j);
      if Alters(ops[j], r) {
        InstallAlters(req, ops[j], r);
        var item := WriterOf(req, d, ops, installed, cleared, j);
        WritesOurs(req, d, Run(d, ops[..j]), ops[j], item);
      }
    }
  }

  lemma InstallAlters(req: Request, op: Op, r: Path)
    requires Installing(req, op) && Alters(op, r) && InEntries(r)
    ensures IsConfWrite(op)
  {
    hide IsDestOf;
    assert |Key(op.path)| == |op.path|;
  }

  lemma ConfSame(req: Request, d: Disk, run: SyncRun, r: Path)
    requires Keeps(req, d) && CompleteRun(req, d, run) && Fits(req, run)
    requires InEntries(r) && r !in ConfKeys(req) && IsFile(d, r)
    ensures NodeAt(InstallPhase(req, d, run).disk, r) == NodeAt(d, r)
  {
    hide Keeps, CompleteRun, Installs, SyncOps, IsRun, ConfKeys, InEntries, Untouched, Run, IsFile;
    RunIsRun(req, d, run);
    AtInstalled(req, d, run);
    var ops, installed := SyncOps(req, d, run), Installed(req, d, run);
    NotRewritten(req, d, ops, installed, installed + |run.confs|, r);
    ConfStays(req, d, ops, installed, installed + |run.confs|, installed, r);
  }

  // ---------------------------------------------------------------- what cleaning up takes

  /** What cleaning up takes away, if it was there before the run and is no asset, is one of those files. */
  lemma TakenIsRemoved(req: Request, d: Disk, run: SyncRun, op: Op, r: Path)
    requires Keeps(req, d) && CompleteRun(req, d, run) && Fits(req, run)
    requires op in CleanupOps(run) && Endangers(op, r) && IsFile(d, r)
    ensures IsRemoved(req, d, r)
  {
    hide Tree, Modern, Genuine, Agrees, AllKept, CompleteRun, Installs, Results, Cleaned, ConfKeys, AssetKeys,
         InConfArea, LoaderFiles, KernelDirs, FilesBelow, IsStaleConf, IsStaleTree, IsStaleFile, Clears, IsStaleDir,
         IsCleaned, Final;
    TwoPhases(req, d, run);
    CleanupClears(req, d, run, op);
    TakenNotAsked(req, op, r);
    var e := InstallPhase(req, d, run).disk;
    if op in run.confs {
      TakenConf(req, d, run, op.path, r);
    } else if op in run.trees {
      TakenTree(req, d, run, op.path, r);
    } else {
      var dir :| dir in KernelDirs(e, req.schema) && op.path in FilesBelow(e, dir);
      TakenFile(req, e, dir, op.path);
    }
  }

  lemma TakenNotAsked(req: Request, op: Op, r: Path)
    requires Clears(req, op) && Endangers(op, r)
    ensures !InTarget(req, r)
  {
    hide ConfKeys, AssetKeys;
  }

  lemma TakenConf(req: Request, d: Disk, run: SyncRun, p: Path, r: Path)
    requires Keeps(req, d) && CompleteRun(req, d, run) && Fits(req, run) && IsFile(d, r) && !InTarget(req, r)
    requires p in LoaderFiles(InstallPhase(req, d, run).disk, req.schema) && Key(p) == r
    ensures InConfArea(req, d, r)
  {
    hide Tree, Modern, Genuine, Agrees, AllKept, CompleteRun, Installs, ConfKeys, AssetKeys, HasCleanedPrefix,
         SameScaffold;
    TurnDisk(req, d, run, |req.items|);
    var e := InstallPhase(req, d, run).disk;
    LoaderFileKey(e, req.schema, p);
    ListedPrefix(req, e, p);
    ConfSame(req, d, run, r);
  }

  lemma ListedPrefix(req: Request, e: Disk, p: Path)
    requires Tree(e) && p in LoaderFiles(e, req.schema)
    ensures Key(p) in e && HasCleanedPrefix(req.schema, e[Key(p)].name)
  {
    hide HasCleanedPrefix, EntriesDir;
    ListedUnderKey(e, EntriesDir(e));
  }

  lemma TakenTree(req: Request, d: Disk, run: SyncRun, dir: Path, r: Path)
    requires Keeps(req, d) && CompleteRun(req, d, run) && Fits(req, run) && IsFile(d, r)
    requires dir in StaleTrees(InstallPhase(req, d, run).disk, req.schema, Results(req, d, run)) && Key(dir) < r
    ensures InAssetArea(req, r) || (|r| > 4 && IsStaleDir(req, d, r[..3]))
  {
    hide Tree, Modern, Genuine, Agrees, AllKept, CompleteRun, Installs, Results, KernelDirs, IsStaleTree, IsStaleDir,
         SameScaffold, IsCleaned;
    TurnDisk(req, d, run, |req.items|);
    var e := InstallPhase(req, d, run).disk;
    BelowEfi(e, req.schema, dir);
    FrontOf(Key(dir), r);
    DirAbove(d, r[..3], r);
    StaleTreeIs(req, d, run, dir);
    ListedName(req, d, run, dir);
    CleanedBelow(req, Key(dir), r);
  }

  lemma FrontOf(q: Path, r: Path)
    requires |q| == 3 && q < r
    ensures |r| > 3 && r[..3] == q && r[..2] == q[..2]
  {
  }

  lemma CleanedBelow(req: Request, q: Path, r: Path)
    requires IsCleaned(req, q) && |r| >= 2 && r[..2] == q[..2]
    ensures IsCleaned(req, r)
  {
  }

  lemma TakenFile(req: Request, e: Disk, dir: Path, p: Path)
    requires Tree(e) && dir in KernelDirs(e, req.schema) && p in FilesBelow(e, dir)
    ensures InAssetArea(req, Key(p))
  {
    hide Tree, KernelDirs, FilesBelow, IsCleaned;
    BelowEfi(e, req.schema, dir);
    var n := FileListed(e, dir, p);
    assert |Key(p)| == 4;
    ListedIsCleaned(req, e, dir, Key(p));
  }

  // ---------------------------------------------------------------- what is removed is gone

  lemma RemovedIsGone(req: Request, d: Disk, run: SyncRun, r: Path)
    requires Keeps(req, d) && CompleteRun(req, d, run) && IsRemoved(req, d, r)
    ensures !IsFile(Final(req, d, run), r)
  {
    hide Tree, Modern, Genuine, Agrees, AllKept, CompleteRun, Installs, Results, Cleaned, CleanupOps, RemovesStale,
         ConfKeys, AssetKeys, Final, IsStaleDir, IsCleaned, InConfArea;
    TwoPhases(req, d, run);
    if IsFile(Final(req, d, run), r) {
      if InConfArea(req, d, r) {
        ConfAreaAtEnd(req, d, run, r);
      }
      if InConfArea(req, d, r) || InAssetArea(req, r) {
        ManagedIsAsked(req, d, run, r);
      } else {
        DeepIsGone(req, d, run, r);
      }
    }
  }

  lemma ConfAreaAtEnd(req: Request, d: Disk, run: SyncRun, r: Path)
    requires Keeps(req, d) && CompleteRun(req, d, run) && IsFile(d, r) && !InTarget(req, r)
    requires InConfArea(req, d, r) && r in Final(req, d, run)
    ensures InConfArea(req, Final(req, d, run), r)
  {
    hide Tree, Modern, Genuine, Agrees, AllKept, CompleteRun, Installs, Results, Cleaned, CleanupOps, RemovesStale,
         ConfKeys, AssetKeys, Final, HasCleanedPrefix, InEntries;
    TwoPhases(req, d, run);
    ConfSame(req, d, run, r);
    RemovalsShrink(InstallPhase(req, d, run).disk, CleanupOps(run), r);
  }

  lemma DeepIsGone(req: Request, d: Disk, run: SyncRun, r: Path)
    requires Keeps(req, d) && CompleteRun(req, d, run) && |r| > 4 && IsStaleDir(req, d, r[..3])
    ensures r !in Final(req, d, run)
  {
    hide Tree, Modern, Genuine, Agrees, AllKept, CompleteRun, Installs, Results, CleanupOps, RemovesStale, Final,
         IsStaleDir, KernelDirs, IsStaleTree, Cleaned;
    TwoPhases(req, d, run);
    var e, f := InstallPhase(req, d, run).disk, Final(req, d, run);
    TreeRun(e, CleanupOps(run));
    if r in f {
      DirAbove(f, r[..3], r);
      RemovalsShrink(e, CleanupOps(run), r[..3]);
      StaleIsCleaned(req, d, r[..3]);
      var dir := ListedDirAt(req, e, r[..3]);
      StaleTreeIs(req, d, run, dir);
      StaleTreeGone(e, f, req.schema, Results(req, d, run), dir);
    }
  }

  lemma StaleTreeGone(e: Disk, f: Disk, schema: Schema, results: seq<InstallResult>, dir: Path)
    requires Cleaned(e, f, schema, results) && dir in KernelDirs(e, schema) && IsStaleTree(schema, results, dir)
    ensures Key(dir) !in f
  {
    hide KernelDirs, IsStaleTree, StaleConfs, StaleFiles;
  }

  lemma StaleIsCleaned(req: Request, d: Disk, q: Path)
    requires IsStaleDir(req, d, q)
    ensures |q| == 3 && IsCleaned(req, q) && q in d
  {
    hide IsCleaned, IsKernelDir;
  }

  /** A directory in a namespace that is cleaned is listed. */
  lemma ListedDirAt(req: Request, e: Disk, q: Path) returns (dir: Path)
    requires Tree(e) && |q| == 3 && IsCleaned(req, q) && q in e && e[q].Dir?
    ensures dir in KernelDirs(e, req.schema) && Key(dir) == q
  {
    hide Tree, NamespaceDir;
    var namespace :| namespace in req.schema.CleanedNamespaces() && q[..2] == Key(["EFI", namespace]);
    NamespaceKey(e, namespace);
    assert Parent(q) == q[..2];
    ChildAt(e, NamespaceDir(e, namespace), q);
    dir := NamespaceDir(e, namespace) + [e[q].name];
    hide Children;
  }

  // ---------------------------------------------------------------- what is not removed stays

  /** What installing renames are staging files. */
  lemma RenamedIsStaging(req: Request, op: Op)
    requires Installing(req, op) && op.Rename?
    ensures Key(op.path) in StagingKeys(req)
  {
    hide WantedDest, Staging, Wish;
    var item, asset, dest: Path :| item in req.items && asset in item.entry.Assets() && |dest| == 4
      && IsDestOf(req, item, asset, dest) && CopyShape(op, dest);
    SameStaging(dest, WantedDest(req, item, asset));
    assert StagingKey(req, item, asset) in StagingKeys(req);
  }

  lemma NotTaken(req: Request, op: Op, r: Path)
    requires Installing(req, op) && r !in StagingKeys(req)
    ensures !TakesAway(op, r)
  {
    hide Installing, StagingKeys;
    if op.Rename? {
      RenamedIsStaging(req, op);
    } else if op.Remove? {
      RemovesAsset(req, op);
    }
  }

  lemma StaysInstalled(req: Request, d: Disk, run: SyncRun, r: Path)
    requires Keeps(req, d) && CompleteRun(req, d, run) && Fits(req, run)
    requires IsFile(d, r) && r !in AssetKeys(req) && r !in StagingKeys(req)
    ensures IsFile(InstallPhase(req, d, run).disk, r)
  {
    hide Keeps, CompleteRun, Installs, SyncOps, IsRun, AssetKeys, StagingKeys, Run, IsFile, Installing, TakesAway;
    RunIsRun(req, d, run);
    AtInstalled(req, d, run);
    var ops, installed := SyncOps(req, d, run), Installed(req, d, run);
    forall m | 0 <= m < installed
      ensures !TakesAway(ops[m], r)
    {
      OpKind(req, d, ops, installed, installed + |run.confs|, m);
      NotTaken(req, ops[m], r);
    }
    FileStays(req, d, ops, installed, installed + |run.confs|, installed, r);
  }

  lemma StaysCleaned(req: Request, d: Disk, run: SyncRun, r: Path)
    requires Keeps(req, d) && CompleteRun(req, d, run) && Fits(req, run)
    requires IsFile(d, r) && IsFile(InstallPhase(req, d, run).disk, r) && !IsRemoved(req, d, r)
    ensures IsFile(Final(req, d, run), r)
  {
    hide Tree, Modern, Genuine, Agrees, AllKept, CompleteRun, Installs, Results, Cleaned, CleanupOps, RemovesStale, Run,
         IsRemoved, Final, Clears, Endangers, AtomicCrash, IsFile;
    TwoPhases(req, d, run);
    var e := InstallPhase(req, d, run).disk;
    forall op | op in CleanupOps(run)
      ensures IsCalm(req, op) && !Endangers(op, r)
    {
      CleanupClears(req, d, run, op);
      if Endangers(op, r) {
        TakenIsRemoved(req, d, run, op, r);
      }
    }
    AtomicOfRun(e, CleanupOps(run));
    CalmKeeps(req, e, CleanupOps(run), Final(req, d, run), r);
  }

  /** What a complete run removes: of the files that were there, staging files aside, it leaves exactly the others. */
  lemma RemovedExactly(req: Request, d: Disk, run: SyncRun, r: Path)
    requires Keeps(req, d) && CompleteRun(req, d, run) && IsFile(d, r) && r !in StagingKeys(req)
    ensures IsFile(Final(req, d, run), r) <==> !IsRemoved(req, d, r)
  {
    hide Keeps, CompleteRun, Installs, IsRemoved, Final, AssetKeys, ConfKeys, StagingKeys, IsFile;
    SyncOpsParts(req, d, run);
    if IsRemoved(req, d, r) {
      RemovedIsGone(req, d, run, r);
    } else if r in AssetKeys(req) {
      AskedIsThere(req, d, run, r);
    } else {
      StaysInstalled(req, d, run, r);
      StaysCleaned(req, d, run, r);
    }
  }

  lemma AskedIsThere(req: Request, d: Disk, run: SyncRun, r: Path)
    requires Keeps(req, d) && CompleteRun(req, d, run) && r in AssetKeys(req)
    ensures IsFile(Final(req, d, run), r)
  {
    hide Keeps, CompleteRun, Final, WantedDest;
    var item, asset :| item in req.items && asset in item.entry.Assets() && r == Key(WantedDest(req, item, asset));
    AssetThere(req, d, run, item, asset);
  }
}
